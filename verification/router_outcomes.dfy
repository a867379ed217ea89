/**
 * What each handler makes of its frame, on every state that satisfies the
 * invariant: exactly when it goes through, what changes and what does not, who
 * is told, and which refusal everybody else gets.
 */
module RouterOutcomes {
  import opened Basics
  import opened OrderedMap
  import opened SignalingTypes
  import opened RouterSpec
  import opened RouterInvariant
  import opened RouterSteps

  /** Refused with an error frame to the sender, the connection staying open. */
  predicate Told(o: Outcome, c: Id, frame: Frame, code: ErrorCode) {
    o.out == [Delivery(c, Reply(frame.id, Error(code)))] && o.result == Ok
  }

  /** Refused, and the transport closes the connection. */
  predicate Expelled(o: Outcome) { o.result.Fatal? }

  /** All records are as before except perhaps that of k. */
  ghost predicate OnlyChanges<K(!new), V>(m: map<K, V>, m': map<K, V>, k: K) {
    forall l :: l != k ==> (l in m' <==> l in m) && (l in m ==> m'[l] == m[l])
  }

  // ----- hello ------------------------------------------------------------------------

  /** A hello binds exactly a live connection without a role to a device that no other connection holds; all else is expelled. */
  lemma HelloOutcome(st: State, c: Id, frame: Frame, nonce: string)
    requires Inv(st) && frame.body.Hello?
    ensures var o, d := OnHello(st, c, frame, nonce), frame.body.deviceId;
      var goes := c in st.conns && st.conns[c].role.None? && forall x :: x in st.conns ==> st.conns[x].deviceId != Some(d);
      if goes then
        && o.result == Ok
        && o.out == [Delivery(c, Reply(frame.id, HelloOk(15, 45))), Delivery(c, Plain(AuthChallenge(nonce)))]
        && o.st.BoundAs(c, frame.body.role, d) && d in o.st.byDevice && o.st.byDevice[d] == c
        && c in o.st.pendingAuth && o.st.pendingAuth[c] == PendingAuth(nonce, 0)
        && OnlyChanges(st.conns, o.st.conns, c) && OnlyChanges(st.pendingAuth, o.st.pendingAuth, c)
      else
        Expelled(o) && o.st == st
  {
    var d := frame.body.deviceId;
    if d in st.byDevice {
      assert st.conns[st.byDevice[d]].deviceId == Some(d);
    }
  }

  /** Before its hello a connection gets nothing but hello and proof through. */
  lemma UnboundIsExpelled(st: State, c: Id, frame: Frame, now: int, pairId: Id, nonce: string)
    requires !st.Bound(c) && !frame.body.Hello? && !frame.body.AuthProof?
    ensures var o := Dispatch(st, c, frame, now, pairId, nonce); Expelled(o) && o.st == st
  {
  }

  // ----- pairing ------------------------------------------------------------------------

  /** A create goes through exactly for a permitted desktop; it cancels what that desktop still presented and nothing else. */
  lemma CreateOutcome(st: State, c: Id, frame: Frame, now: int, k: Id)
    requires Inv(st) && frame.body.PairCreate? && k !in st.pairings.rows
    ensures var o := OnPairCreate(st, c, frame, now, k);
      var rows, rows', expires := st.pairings.rows, o.st.pairings.rows, now + 1000 * frame.body.ttlSeconds;
      if st.MayUse(c) && st.HasRole(c, Desktop) then
        && o.out == [Delivery(c, Reply(frame.id, PairCreated(k, expires)))] && o.result == Ok
        && k in rows' && rows'[k].state == CREATED && rows'[k].desktopConnId == c && rows'[k].expiresAtMs == expires
        && rows'[k].DesktopIdentity() == Identity(st.conns[c].deviceId.value, frame.body.displayName, frame.body.spki, frame.body.fingerprint)
        && rows'.Keys == rows.Keys + {k}
        && (forall l :: l in rows ==>
              rows'[l] == if rows[l].Open() && rows[l].desktopConnId == c then rows[l].(state := CANCELLED) else rows[l])
        && o.st == st.(pairings := o.st.pairings)
      else
        Expelled(o) && o.st == st
  {
    hide RequestOk, SessionOk, IndexInverse;
    var mine := OpenPairingsPresentedBy(st.pairings, c);
    var open := First(st.pairings.order, mine);
    if open.Some? {
      forall l | l in mine ensures l == open.value {
      }
    } else {
      assert forall l :: l in st.pairings.rows ==> l in st.pairings.order;
    }
    forall l | l in st.pairings.rows
      ensures l in mine <==> st.pairings.rows[l].Open() && st.pairings.rows[l].desktopConnId == c
    {
    }
  }

  /** Whether a join goes through: a permitted phone of an unrevoked device, an open pairing, in time. */
  predicate JoinGoes(st: State, c: Id, b: Body, now: int)
    requires b.PairJoin?
  {
    && st.MayUse(c) && st.HasRole(c, Phone) && !st.Revoked(st.conns[c].deviceId.value)
    && b.pairId in st.pairings.rows && st.pairings.rows[b.pairId].Open() && now < st.pairings.rows[b.pairId].expiresAtMs
  }

  /** A join that goes through records its sender and its key material and reaches the presenting desktop; it changes no other pairing. */
  lemma JoinOutcome(st: State, c: Id, frame: Frame, now: int)
    requires Inv(st) && frame.body.PairJoin?
    ensures var o, b := OnPairJoin(st, c, frame, now), frame.body;
      var rows, rows' := st.pairings.rows, o.st.pairings.rows;
      && o.st == st.(pairings := o.st.pairings) && rows'.Keys == rows.Keys && OnlyChanges(rows, rows', b.pairId)
      && (JoinGoes(st, c, b, now) ==>
            && o.out == [Delivery(rows[b.pairId].desktopConnId, frame)] && o.result == Ok
            && rows'[b.pairId].state == JOINED && rows'[b.pairId].phoneConnId == Some(c) && rows'[b.pairId].HasPhone()
            && rows'[b.pairId].PhoneIdentity() == Identity(b.deviceId, b.displayName, b.spki, b.fingerprint))
      && (!JoinGoes(st, c, b, now) ==>
            |o.out| == 1 && o.out[0].to == c && o.out[0].frame.body.Error?)
  {
    hide Inv, PairingOk;
    var k := frame.body.pairId;
    if k in st.pairings.rows && st.pairings.rows[k].Open() {
      PresenterIsLive(st, k);
    }
  }

  lemma PresenterIsLive(st: State, k: Id)
    requires Inv(st) && k in st.pairings.rows && st.pairings.rows[k].Open()
    ensures st.pairings.rows[k].desktopConnId in st.handles
  {
    hide RequestOk, SessionOk, IndexInverse;
    assert PairingOk(st, k, st.pairings.rows[k]);
  }

  /** Every refusal of a join has its exact condition, and the only one that changes the record is the expiry it finds. */
  lemma JoinRefusals(st: State, c: Id, frame: Frame, now: int)
    requires frame.body.PairJoin?
    ensures var o, k := OnPairJoin(st, c, frame, now), frame.body.pairId;
      var permitted := st.MayUse(c) && st.HasRole(c, Phone);
      var free := permitted && !st.Revoked(st.conns[c].deviceId.value);
      var known := k in st.pairings.rows;
      var late := known && st.pairings.rows[k].Open() && now >= st.pairings.rows[k].expiresAtMs;
      && (Expelled(o) <==> !permitted)
      && (Told(o, c, frame, DEVICE_REVOKED) <==> permitted && !free)
      && (Told(o, c, frame, PAIR_EXPIRED) <==>
            free && (!known || st.pairings.rows[k].state == EXPIRED || st.pairings.rows[k].state == CANCELLED || late))
      && (Told(o, c, frame, PAIR_ALREADY_USED) <==> free && known && st.pairings.rows[k].state == CONSUMED)
      && (Told(o, c, frame, PAIR_INVALID_PROOF) <==> free && known && st.pairings.rows[k].state == REJECTED)
      && (!JoinGoes(st, c, frame.body, now) ==>
            if free && late then k in o.st.pairings.rows && o.st.pairings.rows[k] == st.pairings.rows[k].(state := EXPIRED)
            else o.st == st)
  {
    hide SetPairingState, Joined;
    var k := frame.body.pairId;
    if k in st.pairings.rows {
      SetStateAt(st.pairings, k, EXPIRED);
    }
    if JoinGoes(st, c, frame.body, now) {
      JoinIsNoRefusal(st, c, frame, now);
    }
  }

  lemma SetStateAt(m: OMap<Id, Pairing>, k: Id, state: PairingState)
    requires k in m.rows
    ensures k in SetPairingState(m, k, state).rows && SetPairingState(m, k, state).rows[k] == m.rows[k].(state := state)
  {
  }

  /** The frame passed on is a join, never an error. */
  lemma JoinIsNoRefusal(st: State, c: Id, frame: Frame, now: int)
    requires frame.body.PairJoin? && frame.body.pairId in st.pairings.rows && JoinGoes(st, c, frame.body, now)
    ensures forall code :: !Told(OnPairJoin(st, c, frame, now), c, frame, code)
  {
    hide Joined;
  }

  /** The desktop connection, under the device, that presented pairing k. */
  predicate Presents(st: State, c: Id, k: Id) {
    && st.HasRole(c, Desktop) && k in st.pairings.rows
    && st.pairings.rows[k].desktopConnId == c && Some(st.pairings.rows[k].desktopDeviceId) == st.conns[c].deviceId
  }

  function RejectedDeliveries(p: Pairing, k: Id, replyTo: Option<Id>): seq<Delivery>
    requires p.phoneConnId.Some?
  {
    var body := PairRejected(k, PAIR_INVALID_PROOF);
    [Delivery(p.desktopConnId, Reply(replyTo, body)), Delivery(p.phoneConnId.value, Plain(body))]
  }

  /**
   * A rejection goes through exactly when the deciding connection is the pairing's desktop and the pairing is
   * JOINED. Then the record becomes REJECTED, with nothing else changed, and both participants are told; otherwise
   * nothing changes and only an error goes back.
   */
  lemma RejectOutcome(st: State, c: Id, frame: Frame, k: Id)
    requires Inv(st)
    ensures var o := DecidePairing(st, c, frame, k, false);
      var rows, rows' := st.pairings.rows, o.st.pairings.rows;
      if st.HasRole(c, Desktop) && k in rows && rows[k].desktopConnId == c && rows[k].state == JOINED then
        && rows[k].phoneConnId.Some? && o.out == RejectedDeliveries(rows[k], k, frame.id) && o.result == Ok
        && o.st == st.(pairings := o.st.pairings) && o.st.pairings.order == st.pairings.order
        && k in rows' && rows'[k] == rows[k].(state := REJECTED) && OnlyChanges(rows, rows', k)
      else
        o.st == st && |o.out| == 1 && o.out[0].to == c && o.out[0].frame.body.Error?
  {
    hide RequestOk, SessionOk, IndexInverse;
    if k in st.pairings.rows {
      assert PairingOk(st, k, st.pairings.rows[k]);
    }
  }

  /** Every refusal of a decision has its exact condition, the same for both decisions. */
  lemma DecisionRefusals(st: State, c: Id, frame: Frame, k: Id, accept: bool)
    requires Inv(st)
    ensures var o := DecidePairing(st, c, frame, k, accept);
      && (Expelled(o) <==> !st.HasRole(c, Desktop) || (k in st.pairings.rows && !Presents(st, c, k)))
      && (Told(o, c, frame, SESSION_NOT_FOUND) <==> st.HasRole(c, Desktop) && k !in st.pairings.rows)
      && (Told(o, c, frame, PAIR_ALREADY_USED) <==> Presents(st, c, k) && st.pairings.rows[k].state == CONSUMED)
      && (Told(o, c, frame, PAIR_EXPIRED) <==>
            Presents(st, c, k) && st.pairings.rows[k].state != JOINED && st.pairings.rows[k].state != CONSUMED)
  {
    hide RequestOk, SessionOk, IndexInverse;
    if k in st.pairings.rows {
      assert PairingOk(st, k, st.pairings.rows[k]);
    }
  }

  // ----- requests and acceptances -------------------------------------------------------

  /** Whether a request goes through: a permitted phone, neither device revoked, the desktop's device online. */
  predicate RequestGoes(st: State, c: Id, b: Body)
    requires b.SessionRequest?
  {
    && st.MayUse(c) && st.HasRole(c, Phone)
    && !st.Revoked(st.conns[c].deviceId.value) && !st.Revoked(b.desktopDeviceId)
    && exists x :: x in st.conns && st.conns[x].deviceId == Some(b.desktopDeviceId)
  }

  /** A request that goes through is recorded for exactly these two devices and reaches the one connection of the desktop's device. */
  lemma RequestOutcome(st: State, c: Id, frame: Frame)
    requires Inv(st) && frame.body.SessionRequest?
    ensures var o, d := OnSessionRequest(st, c, frame), frame.body.desktopDeviceId;
      if RequestGoes(st, c, frame.body) then
        && var key := RequestKey(d, st.conns[c].deviceId.value);
        && d in st.byDevice && st.byDevice[d] in st.conns && st.conns[st.byDevice[d]].deviceId == Some(d)
        && o.out == [Delivery(st.byDevice[d], frame)] && o.result == Ok
        && o.st == st.(requests := o.st.requests)
        && key in o.st.requests.rows && o.st.requests.rows[key] == Request(c, frame)
        && OnlyChanges(st.requests.rows, o.st.requests.rows, key)
      else
        o.st == st && |o.out| == 1 && o.out[0].to == c && o.out[0].frame.body.Error?
  {
    hide RequestKey, PairingOk, SessionOk, RequestOk;
    OnlineExactly(st, frame.body.desktopDeviceId);
  }

  lemma OnlineExactly(st: State, d: Id)
    requires Inv(st)
    ensures d in st.byDevice <==> exists x :: x in st.conns && st.conns[x].deviceId == Some(d)
    ensures d in st.byDevice ==> st.byDevice[d] in st.conns && st.conns[st.byDevice[d]].deviceId == Some(d)
  {
  }

  lemma RequestRefusals(st: State, c: Id, frame: Frame)
    requires Inv(st) && frame.body.SessionRequest?
    ensures var o, d := OnSessionRequest(st, c, frame), frame.body.desktopDeviceId;
      var permitted := st.MayUse(c) && st.HasRole(c, Phone);
      var free := permitted && !st.Revoked(st.conns[c].deviceId.value) && !st.Revoked(d);
      && (Expelled(o) <==> !permitted)
      && (Told(o, c, frame, DEVICE_REVOKED) <==> permitted && !free)
      && (Told(o, c, frame, SESSION_NOT_FOUND) <==> free && forall x :: x in st.conns ==> st.conns[x].deviceId != Some(d))
  {
    hide RequestKey, PairingOk, SessionOk, RequestOk;
    OnlineExactly(st, frame.body.desktopDeviceId);
    if RequestGoes(st, c, frame.body) {
      RequestOutcome(st, c, frame);
    }
  }

  /**
   * An acceptance by a desktop consumes the pending request it answers whatever becomes of it. It reaches the phone
   * of that request when its guard holds; when a device is taken, desktop and phone are both told of the conflict.
   */
  lemma AcceptedOutcome(st: State, c: Id, frame: Frame, now: int)
    requires Inv(st) && frame.body.SessionAccepted?
    ensures var o, b := OnSessionAccepted(st, c, frame, now), frame.body;
      if !st.HasRole(c, Desktop) then Expelled(o) && o.st == st
      else
        var key := RequestKey(st.conns[c].deviceId.value, b.phoneDeviceId);
        if key !in st.requests.rows then Told(o, c, frame, SESSION_NOT_FOUND) && o.st == st
        else
          var phone := st.requests.rows[key].phoneConnId;
          && o.st == st.(requests := o.st.requests, sessions := o.st.sessions)
          && o.st.requests.rows == st.requests.rows - {key}
          && st.BoundAs(phone, Phone, b.phoneDeviceId)
          && if b.desktopDeviceId != st.conns[c].deviceId.value then Expelled(o) && o.st.sessions == st.sessions
             else if AcceptGuard(st, c, b) then
               && o.out == [Delivery(phone, frame)] && o.result == Ok
               && b.sessionId in o.st.sessions.rows
               && o.st.sessions.rows[b.sessionId] == Session(b.sessionId, b.desktopDeviceId, b.phoneDeviceId, c, phone, SIGNALING, now)
             else
               && o.out == [Delivery(c, Reply(frame.id, Error(SESSION_CONFLICT))), Delivery(phone, Plain(SessionRejected(SESSION_CONFLICT)))]
               && o.result == Ok && o.st.sessions == st.sessions
  {
    hide RequestKey, PairingOk, SessionOk, OpenSessionsUsing, IndexInverse;
    if st.HasRole(c, Desktop) && RequestKey(st.conns[c].deviceId.value, frame.body.phoneDeviceId) in st.requests.rows {
      RequestNamesPhone(st, st.conns[c].deviceId.value, frame.body.phoneDeviceId);
    }
  }

  // ----- relays, pings and everything else -------------------------------------------------

  /** Every refusal of a relayed signal has its exact condition; a relay changes nothing. */
  lemma RelayRefusals(st: State, c: Id, frame: Frame, k: Id, role: Option<Role>)
    requires st.Bound(c)
    ensures var o := RelaySignal(st, c, frame, k, role);
      var fits := role.None? || st.conns[c].role == role;
      var open := k in st.sessions.rows && st.sessions.rows[k].Open();
      && o.st == st
      && (Expelled(o) <==> !fits || (open && !st.sessions.rows[k].Mentions(c)))
      && (fits && !open ==> o.result == Ok && o.out == [Delivery(c, Plain(Error(SESSION_NOT_FOUND)))])
      && (fits && open && st.sessions.rows[k].Mentions(c) ==>
            o.result == Ok && forall x :: x in o.out ==> x.frame == frame && OtherEnd(st.sessions.rows[k], c, x.to))
  {
  }

  /** The participant of session s that is not c. */
  predicate OtherEnd(s: Session, c: Id, peer: Id) {
    (s.desktopConnId == c && s.phoneConnId == peer) || (s.phoneConnId == c && s.desktopConnId == peer)
  }

  /** A ping is answered with its own time stamp, and changes nothing but when the connection was last heard. */
  lemma PingOutcome(st: State, c: Id, frame: Frame, now: int, pairId: Id, nonce: string)
    requires st.Bound(c) && frame.body.PresencePing?
    ensures var o := Dispatch(st, c, frame, now, pairId, nonce);
      && o.result == Ok && o.out == [Delivery(c, Plain(PresencePong(frame.body.ts)))]
      && o.st == st.(conns := o.st.conns) && OnlyChanges(st.conns, o.st.conns, c)
      && c in o.st.conns && o.st.conns[c] == st.conns[c].(lastSeenMs := now)
  {
  }

  /** Frames that only the service sends. */
  predicate FromService(b: Body) {
    || b.HelloOk? || b.AuthChallenge? || b.AuthOk? || b.PairCreated? || b.PairAccepted? || b.PairRejected?
    || b.PresencePong? || b.Error?
  }

  lemma ServiceFramesAreExpelled(st: State, c: Id, frame: Frame, now: int, pairId: Id, nonce: string)
    requires FromService(frame.body)
    ensures Expelled(Dispatch(st, c, frame, now, pairId, nonce))
    ensures Dispatch(st, c, frame, now, pairId, nonce).st.(conns := st.conns) == st
  {
  }

  // ----- proofs ---------------------------------------------------------------------------

  /** The registry is insert-only: a device it holds is never altered, a new one is recorded under the key and name of its proof. */
  lemma EnrollOutcome(devices: map<Id, Device>, d: Id, p: Proof)
    ensures var (r, devices') := Enroll(devices, d, p);
      && (r == Enrolled <==> d !in devices)
      && (r == Known <==> d in devices && devices[d].spki == p.spki && devices[d].fingerprint == p.fingerprint)
      && devices' == if d in devices then devices else devices[d := Device(p.spki, p.fingerprint, p.displayName, None)]
  {
  }

  /**
   * The end of a proof: a good signature under the key the registry holds, or of a newcomer in open mode, authenticates
   * its connection, spends its challenge and says whether it enrolled; a newcomer is recorded under its own key and name.
   */
  lemma ProofOutcome(st: State, task: AuthTask, ok: bool)
    ensures var o, d := ResumeVerify(st, task, ok), task.deviceId;
      var known := d in st.devices;
      var good := ok && (if known then st.devices[d].spki == task.proof.spki && st.devices[d].fingerprint == task.proof.fingerprint
                         else st.mode == OpenMode);
      if good then
        && o.result == Ok && o.out == [Delivery(task.connId, Reply(task.replyTo, AuthOk(!known)))]
        && o.st.authenticated == st.authenticated + {task.connId} && o.st.pendingAuth == st.pendingAuth - {task.connId}
        && OnlyChanges(st.devices, o.st.devices, d) && d in o.st.devices
        && o.st.devices[d] == (if known then st.devices[d]
                               else Device(task.proof.spki, task.proof.fingerprint, task.proof.displayName, None))
      else
        o.out == [] && o.st == st.(pendingAuth := o.st.pendingAuth)
  {
  }
}
