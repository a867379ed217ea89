/**
 * What the router must let happen: from every state that satisfies the
 * invariant two permitted connections can pair, and two free devices can open
 * a session and negotiate.
 */
module RouterProgress {
  import opened Basics
  import opened OrderedMap
  import opened SignalingTypes
  import opened RouterSpec
  import opened RouterInvariant
  import opened RouterSteps

  /** The identities that a `pair.create` and a `pair.join` carry. */
  function CreatorIdentity(d: Id, b: Body): Identity
    requires b.PairCreate?
  {
    Identity(d, b.displayName, b.spki, b.fingerprint)
  }

  function JoinerIdentity(b: Body): Identity
    requires b.PairJoin?
  {
    Identity(b.deviceId, b.displayName, b.spki, b.fingerprint)
  }

  /** A live connection in its role that the service lets pair and request. */
  predicate Permitted(st: State, c: Id, r: Role) { st.HasRole(c, r) && st.MayUse(c) && c in st.handles }

  lemma CreatePairs(st: State, c: Id, frame: Frame, now: int, k: Id, nonce: string)
    requires Inv(st) && Permitted(st, c, Desktop) && frame.body.PairCreate? && k !in st.pairings.rows
    ensures var o := Dispatch(st, c, frame, now, k, nonce);
      var p := NewPairing(k, c, st.conns[c].deviceId.value, frame.body, now);
      && o.result == Ok && o.out == [Delivery(c, Reply(frame.id, PairCreated(k, p.expiresAtMs)))]
      && o.st == Touch(st, c, now).(pairings := o.st.pairings)
      && k in o.st.pairings.rows && o.st.pairings.rows[k] == p
  {
    hide Inv, Supersede;
  }

  lemma JoinPairs(st: State, c: Id, frame: Frame, now: int, unused: Id, nonce: string, p: Pairing)
    requires Permitted(st, c, Phone) && !st.Revoked(st.conns[c].deviceId.value)
    requires frame.body.PairJoin? && frame.body.pairId in st.pairings.rows && st.pairings.rows[frame.body.pairId] == p
    requires p.state == CREATED && now < p.expiresAtMs && p.desktopConnId in st.handles
    ensures var o := Dispatch(st, c, frame, now, unused, nonce);
      && o.result == Ok && o.out == [Delivery(p.desktopConnId, frame)]
      && o.st == Touch(st, c, now).(pairings := o.st.pairings)
      && frame.body.pairId in o.st.pairings.rows && o.st.pairings.rows[frame.body.pairId] == Joined(p, c, frame.body)
  {
  }

  lemma AcceptPairs(st: State, c: Id, frame: Frame, now: int, unused: Id, nonce: string, p: Pairing)
    requires st.HasRole(c, Desktop) && frame.body.PairAccept? && frame.body.pairId in st.pairings.rows
    requires st.pairings.rows[frame.body.pairId] == p && p.state == JOINED && p.HasPhone()
    requires p.desktopConnId == c && Some(p.desktopDeviceId) == st.conns[c].deviceId
    requires c in st.handles && p.phoneConnId.value in st.handles
    ensures var o := Dispatch(st, c, frame, now, unused, nonce);
      o.result == Ok && o.out == AcceptedDeliveries(p, frame.id)
  {
  }

  /**
   * Create, join before the expiry and accept always pair: the join reaches the presenting desktop, and both
   * connections then get exactly the two identities that were sent in.
   */
  lemma PairingSucceeds(st: State, desktop: Id, phone: Id, create: Frame, join: Frame, accept: Frame,
                        t1: int, t2: int, t3: int, k: Id, other: Id, nonce: string)
    requires Inv(st) && Permitted(st, desktop, Desktop) && Permitted(st, phone, Phone) && k !in st.pairings.rows
    requires !st.Revoked(st.conns[phone].deviceId.value)
    requires create.body.PairCreate? && t2 < t1 + create.body.ttlSeconds * 1000
    requires join.body.PairJoin? && join.body.pairId == k && accept.body == PairAccept(k)
    ensures var o1 := Dispatch(st, desktop, create, t1, k, nonce);
      var o2 := Dispatch(o1.st, phone, join, t2, other, nonce);
      var o3 := Dispatch(o2.st, desktop, accept, t3, other, nonce);
      var both := PairAccepted(k, CreatorIdentity(st.conns[desktop].deviceId.value, create.body), JoinerIdentity(join.body));
      && o2.out == [Delivery(desktop, join)]
      && o3.out == [Delivery(desktop, Reply(accept.id, both)), Delivery(phone, Plain(both))]
      && o1.result == Ok && o2.result == Ok && o3.result == Ok
  {
    hide Dispatch, Inv;
    CreatePairs(st, desktop, create, t1, k, nonce);
    var o1 := Dispatch(st, desktop, create, t1, k, nonce);
    var p := o1.st.pairings.rows[k];
    JoinPairs(o1.st, phone, join, t2, other, nonce, p);
    var o2 := Dispatch(o1.st, phone, join, t2, other, nonce);
    AcceptPairs(o2.st, desktop, accept, t3, other, nonce, Joined(p, phone, join.body));
  }

  lemma RequestArrives(st: State, c: Id, desktop: Id, d: Id, frame: Frame, now: int, unused: Id, nonce: string)
    requires Inv(st) && Permitted(st, c, Phone) && st.BoundAs(desktop, Desktop, d)
    requires !st.Revoked(st.conns[c].deviceId.value) && !st.Revoked(d)
    requires frame.body.SessionRequest? && frame.body.desktopDeviceId == d
    ensures var o := Dispatch(st, c, frame, now, unused, nonce);
      var key := RequestKey(d, st.conns[c].deviceId.value);
      && o.result == Ok && o.out == [Delivery(desktop, frame)]
      && o.st == Touch(st, c, now).(requests := o.st.requests)
      && key in o.st.requests.rows && o.st.requests.rows[key] == Request(c, frame)
  {
    hide RequestKey;
    assert st.byDevice[d] == desktop;
  }

  lemma AcceptedOpens(st: State, c: Id, d: Id, p: Id, phone: Id, frame: Frame, now: int, unused: Id, nonce: string)
    requires st.BoundAs(c, Desktop, d) && frame.body.SessionAccepted? && frame.body.desktopDeviceId == d && frame.body.phoneDeviceId == p
    requires RequestKey(d, p) in st.requests.rows && st.requests.rows[RequestKey(d, p)].phoneConnId == phone && phone in st.handles
    requires OpenSessionsUsing(st.sessions, d) == {} && OpenSessionsUsing(st.sessions, p) == {}
    ensures var o := Dispatch(st, c, frame, now, unused, nonce);
      && o.result == Ok && o.out == [Delivery(phone, frame)]
      && frame.body.sessionId in o.st.sessions.rows
      && o.st.sessions.rows[frame.body.sessionId] == Session(frame.body.sessionId, d, p, c, phone, SIGNALING, now)
  {
    hide RequestKey, OpenSessionsUsing;
  }

  /**
   * A request, its acceptance and an offer always get through between two unrevoked devices that are in no open
   * session: request to the desktop, acceptance and offer to the phone.
   */
  lemma SessionOpens(st: State, desktop: Id, phone: Id, d: Id, p: Id, request: Frame, accepted: Frame, offer: Frame,
                     t1: int, t2: int, t3: int, other: Id, nonce: string)
    requires Inv(st) && Permitted(st, phone, Phone) && st.BoundAs(desktop, Desktop, d) && st.BoundAs(phone, Phone, p)
    requires !st.Revoked(d) && !st.Revoked(p) && other !in st.pairings.rows
    requires OpenSessionsUsing(st.sessions, d) == {} && OpenSessionsUsing(st.sessions, p) == {}
    requires request.body.SessionRequest? && request.body.desktopDeviceId == d
    requires accepted.body.SessionAccepted? && accepted.body.desktopDeviceId == d && accepted.body.phoneDeviceId == p
    requires offer.body.SignalOffer? && offer.body.sessionId == accepted.body.sessionId
    ensures var o1 := Dispatch(st, phone, request, t1, other, nonce);
      var o2 := Dispatch(o1.st, desktop, accepted, t2, other, nonce);
      var o3 := Dispatch(o2.st, desktop, offer, t3, other, nonce);
      && o1.out == [Delivery(desktop, request)] && o2.out == [Delivery(phone, accepted)] && o3.out == [Delivery(phone, offer)]
      && o1.result == Ok && o2.result == Ok && o3.result == Ok
  {
    hide Dispatch, Inv, OpenSessionsUsing, RequestKey;
    RequestArrives(st, phone, desktop, d, request, t1, other, nonce);
    DispatchKeepsInv(st, phone, request, t1, other, nonce);
    var o1 := Dispatch(st, phone, request, t1, other, nonce);
    AcceptedOpens(o1.st, desktop, d, p, phone, accepted, t2, other, nonce);
    DispatchKeepsInv(o1.st, desktop, accepted, t2, other, nonce);
    var o2 := Dispatch(o1.st, desktop, accepted, t2, other, nonce);
    OfferReachesThePhone(o2.st, desktop, offer, t3, other, nonce);
  }

  /**
   * A proof over the pending challenge with a matching fingerprint and a good signature authenticates an unrevoked
   * device, exactly when the registry holds that key for it, or nothing and the service is open.
   */
  lemma ProofAuthenticatesExactly(st: State, c: Id, frame: Frame, now: int, unused: Id, nonce: string)
    requires st.Bound(c) && c in st.pendingAuth && frame.body.AuthProof? && c !in st.authenticated
    requires !st.Revoked(st.conns[c].deviceId.value)
    ensures var d, proof := st.conns[c].deviceId.value, frame.body.proof;
      var task := AuthTask(c, d, st.pendingAuth[c].nonce, proof, frame.id, AwaitingFingerprint);
      var o1 := Dispatch(st, c, frame, now, unused, nonce);
      var o2 := ResumeFingerprint(o1.st, task, proof.fingerprint);
      var o3 := ResumeVerify(o2.st, task.(stage := AwaitingVerify), true);
      var known := d in st.devices && st.devices[d].spki == proof.spki && st.devices[d].fingerprint == proof.fingerprint;
      && o1.result == Awaiting(task) && o2.result == Awaiting(task.(stage := AwaitingVerify))
      && (c in o3.st.authenticated <==> known || (d !in st.devices && st.mode == OpenMode))
      && (c in o3.st.authenticated ==> o3.out == [Delivery(c, Reply(frame.id, AuthOk(d !in st.devices)))])
  {
  }
}
