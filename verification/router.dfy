/**
 * `SignalingRouter` with its mutable tables. Every handler is proved to do
 * exactly what the step function of the same name in `RouterSpec` says, and
 * to keep the invariant of `RouterInvariant`.
 */
module Router {
  import opened Basics
  import opened OrderedMap
  import opened SignalingTypes
  import opened Registries
  import Spec = RouterSpec
  import I = RouterInvariant

  // ----- one more turn of the router's loops -------------------------------------

  lemma ForwardStep(m: OMap<string, Request>, mine: set<string>, i: nat, handles: set<Id>, frame: Frame)
    requires m.Valid() && i < |m.order|
    ensures var f := Spec.ForwardToPhones(Select(m.order[..i], mine), m.rows, handles, frame);
            Spec.ForwardToPhones(Select(m.order[..i + 1], mine), m.rows, handles, frame)
            == if m.order[i] in mine then f + Spec.Send(handles, m.rows[m.order[i]].phoneConnId, frame) else f
  {
    hide Spec.Send, NoRepeats;
    assert m.order[..i + 1][..i] == m.order[..i];
    var before, after := Select(m.order[..i], mine), Select(m.order[..i + 1], mine);
    if m.order[i] in mine {
      assert after[..|after| - 1] == before;
    } else {
      assert after == before;
    }
  }

  lemma NothingForwarded(m: OMap<string, Request>, mine: set<string>, handles: set<Id>, frame: Frame)
    ensures Spec.ForwardToPhones(Select(m.order[..0], mine), m.rows, handles, frame) == []
  {
  }

  lemma CancelNone(m: OMap<Id, Pairing>)
    ensures Spec.CancelPairings(m, {}) == m
  {
    assert Spec.CancelPairings(m, {}).rows == m.rows;
  }

  lemma CancelOneMore(m: OMap<Id, Pairing>, done: set<Id>, k: Id)
    requires k in m.rows && k !in done
    ensures var m' := Spec.CancelPairings(m, done);
            && k in m'.rows && m'.rows[k] == m.rows[k]
            && m'.Put(k, m.rows[k].(state := CANCELLED)) == Spec.CancelPairings(m, done + {k})
  {
    var m' := Spec.CancelPairings(m, done);
    assert m'.Put(k, m.rows[k].(state := CANCELLED)).rows == Spec.CancelPairings(m, done + {k}).rows;
  }

  lemma PairingNoticesStep(keys: seq<Id>, i: nat, rows: map<Id, Pairing>, handles: set<Id>, c: Id)
    requires i < |keys| && keys[i] in rows
    ensures Spec.PairingNotices(keys[..i + 1], rows, handles, c)
            == Spec.PairingNotices(keys[..i], rows, handles, c) + Spec.PairingNotice(rows[keys[i]], handles, c)
  {
    assert keys[..i + 1][..i] == keys[..i];
  }

  lemma NoNotices(handles: set<Id>, c: Id)
    ensures forall rows: map<Id, Pairing> :: Spec.PairingNotices([], rows, handles, c) == []
    ensures forall rows: map<Id, Session> :: Spec.SessionNotices([], rows, handles, c) == []
  {
  }

  lemma RecordsKnowTheirIds(st: Spec.State)
    requires I.Inv(st)
    ensures st.requests.Valid() && st.pairings.Valid() && st.sessions.Valid()
    ensures forall k :: k in st.pairings.rows ==> st.pairings.rows[k].pairId == k
    ensures forall k :: k in st.sessions.rows ==> st.sessions.rows[k].sessionId == k
  {
    assert forall k :: k in st.pairings.rows ==> I.PairingOk(st, k, st.pairings.rows[k]);
    assert forall k :: k in st.sessions.rows ==> I.SessionOk(st, k, st.sessions.rows[k]);
  }

  /** The keys the loop has done. */
  function KeysTo(keys: seq<Id>, i: nat): set<Id>
    requires i <= |keys|
  {
    set k | k in keys[..i]
  }

  lemma OneMoreKey(keys: seq<Id>, i: nat)
    requires i < |keys| && keys[i] !in keys[..i]
    ensures KeysTo(keys, i + 1) == KeysTo(keys, i) + {keys[i]} && keys[i] !in KeysTo(keys, i)
  {
  }

  /** The loop starts with no key, meets each selected key once, and ends with all of them. */
  lemma SelectedKeys(order: seq<Id>, mine: set<Id>, keys: seq<Id>)
    requires NoRepeats(order) && keys == Select(order, mine) && forall k :: k in mine ==> k in order
    ensures KeysTo(keys, 0) == {} && KeysTo(keys, |keys|) == mine
    ensures forall i :: 0 <= i < |keys| ==> keys[i] in mine && keys[i] !in keys[..i]
  {
    SelectFacts(order, mine);
    assert keys[..|keys|] == keys;
  }

  lemma CloseNone(m: OMap<Id, Session>)
    ensures Spec.CloseSessions(m, {}) == m
  {
    assert Spec.CloseSessions(m, {}).rows == m.rows;
  }

  lemma CloseOneMore(m: OMap<Id, Session>, done: set<Id>, k: Id)
    requires k in m.rows && k !in done
    ensures var m' := Spec.CloseSessions(m, done);
            && k in m'.rows && m'.rows[k] == m.rows[k]
            && m'.Put(k, m.rows[k].(state := CLOSED)) == Spec.CloseSessions(m, done + {k})
  {
    var m' := Spec.CloseSessions(m, done);
    assert m'.Put(k, m.rows[k].(state := CLOSED)).rows == Spec.CloseSessions(m, done + {k}).rows;
  }

  lemma SessionNoticesStep(keys: seq<Id>, i: nat, rows: map<Id, Session>, handles: set<Id>, c: Id)
    requires i < |keys| && keys[i] in rows
    ensures Spec.SessionNotices(keys[..i + 1], rows, handles, c)
            == Spec.SessionNotices(keys[..i], rows, handles, c) + Spec.SessionNotice(rows[keys[i]], handles, c)
  {
    assert keys[..i + 1][..i] == keys[..i];
  }

  class SignalingRouter {
    const registry: ConnectionRegistry
    const pairings: MemoryPairingRepo
    const sessions: MemorySessionRepo
    const devices: MemoryDeviceRegistry
    const deviceAuthMode: AuthMode

    var handles: set<Id>
    var sessionRequests: OMap<string, Request>
    var authenticated: set<Id>
    var pendingAuth: map<Id, PendingAuth>
    /** Every frame handed to a socket so far. */
    var outbox: seq<Delivery>

    /** The tables as one value. */
    ghost function View(): Spec.State
      reads this, registry, pairings, sessions, devices
    {
      Spec.State(deviceAuthMode, registry.conns, registry.byDevice, handles, authenticated, pendingAuth,
                 sessionRequests, pairings.pairings, sessions.sessions, devices.devices)
    }

    ghost predicate Valid()
      reads this, registry, pairings, sessions, devices
    {
      I.Inv(View())
    }

    /** The router now shows the state and has sent the frames of an outcome. */
    ghost predicate Did(o: Spec.Outcome, before: seq<Delivery>, r: InboundResult)
      reads this, registry, pairings, sessions, devices
    {
      View() == o.st && outbox == before + o.out && r == o.result
    }

    constructor (registry: ConnectionRegistry, pairings: MemoryPairingRepo, sessions: MemorySessionRepo,
                 devices: MemoryDeviceRegistry, mode: AuthMode)
      requires registry.conns == map[] && registry.byDevice == map[]
      requires pairings.pairings == Empty() && sessions.sessions == Empty()
      ensures this.registry == registry && this.pairings == pairings && this.sessions == sessions && this.devices == devices
      ensures View() == Spec.Init(mode, devices.devices) && outbox == [] && Valid()
    {
      this.registry, this.pairings, this.sessions, this.devices := registry, pairings, sessions, devices;
      this.deviceAuthMode := mode;
      handles, authenticated := {}, {};
      sessionRequests, pendingAuth := Empty(), map[];
      outbox := [];
    }

    // ----- sending ------------------------------------------------------------

    method Send(connId: Id, frame: Frame)
      modifies this`outbox
      ensures outbox == old(outbox) + Spec.Send(handles, connId, frame)
    {
      if connId in handles {
        outbox := outbox + [Delivery(connId, frame)];
      }
    }

    /** Send on the connection object itself. */
    method Answer(conn: Id, frame: Frame)
      modifies this`outbox
      ensures outbox == old(outbox) + [Delivery(conn, frame)]
    {
      outbox := outbox + [Delivery(conn, frame)];
    }

    method SendError(conn: Id, code: ErrorCode, replyTo: Option<Id>)
      modifies this`outbox
      ensures outbox == old(outbox) + [Delivery(conn, Spec.Reply(replyTo, Error(code)))]
    {
      Answer(conn, Spec.Reply(replyTo, Error(code)));
    }

    // ----- connections --------------------------------------------------------

    /** The transport registers a new socket and hands over its handle. */
    method Open(connId: Id, nowMs: int)
      requires Valid() && connId !in registry.conns
      modifies this, registry
      ensures View() == Spec.OnOpen(old(View()), connId, nowMs) && outbox == old(outbox) && Valid()
    {
      I.OpenKeepsInv(View(), connId, nowMs);
      registry.Register(connId, nowMs);
      handles := handles + {connId};
    }

    method OnHello(conn: Id, frame: Frame, nonce: string) returns (r: InboundResult)
      requires Valid() && frame.body.Hello?
      modifies this, registry
      ensures Did(Spec.OnHello(old(View()), conn, frame, nonce), old(outbox), r)
    {
      if conn !in registry.conns {
        return Fatal(WS_CLOSE_POLICY);
      }
      if registry.conns[conn].role.Some? {
        SendError(conn, MESSAGE_INVALID, None);
        return Fatal(WS_CLOSE_PROTOCOL_ERROR);
      }
      var bound := registry.Bind(conn, frame.body.role, frame.body.deviceId);
      if !bound {
        SendError(conn, SESSION_CONFLICT, None);
        return Fatal(WS_CLOSE_POLICY);
      }
      Answer(conn, Spec.Reply(frame.id, HelloOk(15, 45)));
      pendingAuth := pendingAuth[conn := PendingAuth(nonce, 0)];
      Answer(conn, Spec.Plain(AuthChallenge(nonce)));
      r := Ok;
    }

    // ----- device authentication ----------------------------------------------

    method AuthFailed(conn: Id) returns (r: InboundResult)
      modifies this
      ensures Did(Spec.AuthFailure(old(View()), conn), old(outbox), r)
    {
      var failures := (if conn in pendingAuth then pendingAuth[conn].failures else 0) + 1;
      if conn in pendingAuth {
        pendingAuth := pendingAuth[conn := pendingAuth[conn].(failures := failures)];
      }
      if deviceAuthMode == Required || failures >= MAX_AUTH_FAILURES {
        return Fatal(WS_CLOSE_POLICY);
      }
      r := Ok;
    }

    /** Up to the first await. */
    method OnAuthProof(conn: Id, frame: Frame) returns (r: InboundResult)
      requires frame.body.AuthProof?
      modifies this
      ensures Did(Spec.OnAuthProof(old(View()), conn, frame), old(outbox), r)
    {
      if conn !in pendingAuth || conn !in registry.conns || registry.conns[conn].deviceId.None? {
        SendError(conn, MESSAGE_INVALID, None);
        return Fatal(WS_CLOSE_PROTOCOL_ERROR);
      }
      r := Awaiting(AuthTask(conn, registry.conns[conn].deviceId.value, pendingAuth[conn].nonce,
                             frame.body.proof, frame.id, AwaitingFingerprint));
    }

    /** From the fingerprint await to the signature await. */
    method ResumeFingerprint(task: AuthTask, fingerprint: string) returns (r: InboundResult)
      requires Valid()
      modifies this
      ensures Did(Spec.ResumeFingerprint(old(View()), task, fingerprint), old(outbox), r) && Valid()
    {
      I.ResumeKeepsInv(View(), task, fingerprint, false);
      if fingerprint != task.proof.fingerprint {
        r := AuthFailed(task.connId);
        return;
      }
      if task.deviceId in devices.devices && devices.devices[task.deviceId].revokedAtMs.Some? {
        SendError(task.connId, DEVICE_REVOKED, None);
        return Fatal(WS_CLOSE_POLICY);
      }
      r := Awaiting(task.(stage := AwaitingVerify));
    }

    /** From the signature await to the end. */
    method ResumeVerify(task: AuthTask, ok: bool) returns (r: InboundResult)
      requires Valid()
      modifies this, devices
      ensures Did(Spec.ResumeVerify(old(View()), task, ok), old(outbox), r) && Valid()
    {
      I.ResumeKeepsInv(View(), task, "", ok);
      hide I.Inv;
      if !ok {
        r := AuthFailed(task.connId);
        return;
      }
      var known := task.deviceId in devices.devices;
      if known {
        var d := devices.devices[task.deviceId];
        if d.spki != task.proof.spki || d.fingerprint != task.proof.fingerprint {
          r := AuthFailed(task.connId);
          return;
        }
      } else if deviceAuthMode == Required {
        r := AuthFailed(task.connId);
        return;
      } else {
        var _ := devices.Enroll(task.deviceId, task.proof);
      }
      pendingAuth := pendingAuth - {task.connId};
      authenticated := authenticated + {task.connId};
      Answer(task.connId, Spec.Reply(task.replyTo, AuthOk(!known)));
      r := Ok;
    }

    predicate RequireAuthenticated(conn: Id)
      reads this
    {
      deviceAuthMode == OpenMode || conn in authenticated
    }

    predicate Plays(conn: Id, role: Role)
      reads this, registry
    {
      conn in registry.conns && registry.conns[conn].role == Some(role) && registry.conns[conn].deviceId.Some?
    }

    predicate IsRevoked(deviceId: Id)
      reads this, devices
    {
      deviceId in devices.devices && devices.devices[deviceId].revokedAtMs.Some?
    }

    // ----- pairing -------------------------------------------------------------

    method OnPairCreate(conn: Id, frame: Frame, nowMs: int, pairId: Id) returns (r: InboundResult)
      requires Valid() && frame.body.PairCreate?
      modifies this, pairings
      ensures Did(Spec.OnPairCreate(old(View()), conn, frame, nowMs, pairId), old(outbox), r)
    {
      if !RequireAuthenticated(conn) || !Plays(conn, Desktop) {
        SendError(conn, MESSAGE_INVALID, None);
        return Fatal(WS_CLOSE_POLICY);
      }
      ghost var m := pairings.pairings;
      var open := pairings.FindOpenByDesktopConn(conn);
      if open.Some? {
        ghost var key := First(m.order, Spec.OpenPairingsPresentedBy(m, conn)).value;
        assert I.PairingOk(View(), key, m.rows[key]);
        pairings.Store(open.value.(state := CANCELLED));
      }
      assert pairings.pairings == Spec.Supersede(m, conn);
      var record := Spec.NewPairing(pairId, conn, registry.conns[conn].deviceId.value, frame.body, nowMs);
      pairings.Store(record);
      Answer(conn, Spec.Reply(frame.id, PairCreated(pairId, record.expiresAtMs)));
      r := Ok;
    }

    method OnPairJoin(conn: Id, frame: Frame, nowMs: int) returns (r: InboundResult)
      requires Valid() && frame.body.PairJoin?
      modifies this, pairings
      ensures Did(Spec.OnPairJoin(old(View()), conn, frame, nowMs), old(outbox), r)
    {
      r := Ok;
      if !RequireAuthenticated(conn) || !Plays(conn, Phone) {
        SendError(conn, MESSAGE_INVALID, None);
        return Fatal(WS_CLOSE_POLICY);
      }
      if IsRevoked(registry.conns[conn].deviceId.value) {
        SendError(conn, DEVICE_REVOKED, frame.id);
        return;
      }
      var k := frame.body.pairId;
      if k !in pairings.pairings.rows {
        SendError(conn, PAIR_EXPIRED, frame.id);
        return;
      }
      assert I.PairingOk(View(), k, pairings.pairings.rows[k]);
      hide I.Inv, Spec.JoinKnown;
      JoinKnown(conn, frame, nowMs);
    }

    /** A join of a pairing on record. */
    method JoinKnown(conn: Id, frame: Frame, nowMs: int)
      requires frame.body.PairJoin? && frame.body.pairId in pairings.pairings.rows
      requires pairings.pairings.rows[frame.body.pairId].pairId == frame.body.pairId && frame.body.pairId in pairings.pairings.order
      modifies this`outbox, pairings
      ensures Did(Spec.JoinKnown(old(View()), conn, frame, nowMs), old(outbox), Ok)
    {
      var k := frame.body.pairId;
      var pairing := pairings.pairings.rows[k];
      if pairing.state == EXPIRED || pairing.state == CANCELLED {
        SendError(conn, PAIR_EXPIRED, frame.id);
        return;
      }
      if pairing.state == CONSUMED {
        SendError(conn, PAIR_ALREADY_USED, frame.id);
        return;
      }
      if pairing.state == REJECTED {
        SendError(conn, PAIR_INVALID_PROOF, frame.id);
        return;
      }
      if nowMs >= pairing.expiresAtMs {
        pairings.Store(pairing.(state := EXPIRED));
        SendError(conn, PAIR_EXPIRED, frame.id);
        return;
      }
      RecordJoin(conn, frame, k);
    }

    /** Record the join and relay it to the desktop. */
    method RecordJoin(conn: Id, frame: Frame, k: Id)
      requires frame.body.PairJoin? && k in pairings.pairings.rows && pairings.pairings.rows[k].pairId == k
      modifies this`outbox, pairings
      ensures pairings.pairings == old(pairings.pairings).Put(k, Spec.Joined(old(pairings.pairings.rows[k]), conn, frame.body))
      ensures outbox == old(outbox) + Spec.Send(handles, old(pairings.pairings.rows[k]).desktopConnId, frame)
    {
      var pairing := pairings.pairings.rows[k];
      pairing := pairing.(state := JOINED, phoneConnId := Some(conn), phoneDeviceId := Some(frame.body.deviceId),
                          phoneDisplayName := frame.body.displayName, phoneSpki := Some(frame.body.spki),
                          phoneFingerprint := Some(frame.body.fingerprint));
      pairings.Store(pairing);
      Send(pairing.desktopConnId, frame);
    }

    method DecidePairing(conn: Id, frame: Frame, k: Id, accept: bool) returns (r: InboundResult)
      requires Valid()
      modifies this, pairings
      ensures Did(Spec.DecidePairing(old(View()), conn, frame, k, accept), old(outbox), r)
    {
      r := Ok;
      if !Plays(conn, Desktop) {
        SendError(conn, MESSAGE_INVALID, None);
        return Fatal(WS_CLOSE_POLICY);
      }
      if k !in pairings.pairings.rows {
        SendError(conn, SESSION_NOT_FOUND, frame.id);
        return;
      }
      var pairing := pairings.pairings.rows[k];
      assert I.PairingOk(View(), k, pairing);
      if Some(pairing.desktopDeviceId) != registry.conns[conn].deviceId || pairing.desktopConnId != conn {
        SendError(conn, MESSAGE_INVALID, None);
        return Fatal(WS_CLOSE_POLICY);
      }
      if pairing.state != JOINED {
        SendError(conn, if pairing.state == CONSUMED then PAIR_ALREADY_USED else PAIR_EXPIRED, frame.id);
        return;
      }
      hide I.Inv;
      if !accept {
        RejectJoined(frame, pairing);
        return;
      }
      pairings.Store(pairing.(state := CONSUMED));
      if pairing.HasPhone() {
        AnnounceAcceptance(frame, pairing);
      } else {
        // "no pending phone join" cannot happen to a joined pairing
        assert false;
      }
    }

    method RejectJoined(frame: Frame, pairing: Pairing)
      modifies this`outbox, pairings
      ensures pairings.pairings == old(pairings.pairings).Put(pairing.pairId, pairing.(state := REJECTED))
      ensures var rejected := PairRejected(pairing.pairId, PAIR_INVALID_PROOF);
              outbox == old(outbox) + (Spec.Send(handles, pairing.desktopConnId, Spec.Reply(frame.id, rejected))
                        + (if pairing.phoneConnId.Some? then Spec.Send(handles, pairing.phoneConnId.value, Spec.Plain(rejected)) else []))
    {
      pairings.Store(pairing.(state := REJECTED));
      var rejected := PairRejected(pairing.pairId, PAIR_INVALID_PROOF);
      Send(pairing.desktopConnId, Spec.Reply(frame.id, rejected));
      if pairing.phoneConnId.Some? {
        Send(pairing.phoneConnId.value, Spec.Plain(rejected));
      }
    }

    method AnnounceAcceptance(frame: Frame, pairing: Pairing)
      requires pairing.HasPhone()
      modifies this`outbox
      ensures var accepted := PairAccepted(pairing.pairId, pairing.DesktopIdentity(), pairing.PhoneIdentity());
              outbox == old(outbox) + (Spec.Send(handles, pairing.desktopConnId, Spec.Reply(frame.id, accepted))
                        + Spec.Send(handles, pairing.phoneConnId.value, Spec.Plain(accepted)))
    {
      var accepted := PairAccepted(pairing.pairId, pairing.DesktopIdentity(), pairing.PhoneIdentity());
      Send(pairing.desktopConnId, Spec.Reply(frame.id, accepted));
      Send(pairing.phoneConnId.value, Spec.Plain(accepted));
    }

    // ----- sessions -------------------------------------------------------------

    method OnSessionRequest(conn: Id, frame: Frame) returns (r: InboundResult)
      requires frame.body.SessionRequest?
      modifies this
      ensures Did(Spec.OnSessionRequest(old(View()), conn, frame), old(outbox), r)
    {
      r := Ok;
      if !RequireAuthenticated(conn) || !Plays(conn, Phone) {
        SendError(conn, MESSAGE_INVALID, None);
        return Fatal(WS_CLOSE_POLICY);
      }
      var phone, desktop := registry.conns[conn].deviceId.value, frame.body.desktopDeviceId;
      if IsRevoked(phone) || IsRevoked(desktop) {
        SendError(conn, DEVICE_REVOKED, frame.id);
        return;
      }
      if desktop !in registry.byDevice {
        SendError(conn, SESSION_NOT_FOUND, frame.id);
        return;
      }
      sessionRequests := sessionRequests.Put(Spec.RequestKey(desktop, phone), Request(conn, frame));
      Send(registry.byDevice[desktop], frame);
    }

    method OnSessionAccepted(conn: Id, frame: Frame, nowMs: int) returns (r: InboundResult)
      requires Valid() && frame.body.SessionAccepted?
      modifies this, sessions
      ensures Did(Spec.OnSessionAccepted(old(View()), conn, frame, nowMs), old(outbox), r)
    {
      r := Ok;
      if !Plays(conn, Desktop) {
        SendError(conn, MESSAGE_INVALID, None);
        return Fatal(WS_CLOSE_POLICY);
      }
      var b := frame.body;
      var me := registry.conns[conn].deviceId.value;
      var key := Spec.RequestKey(me, b.phoneDeviceId);
      if key !in sessionRequests.rows {
        SendError(conn, SESSION_NOT_FOUND, frame.id);
        return;
      }
      var request := sessionRequests.rows[key];
      assert sessions.sessions.Valid();
      hide I.Inv, Spec.OpenSessionsUsing, Spec.RequestKey;
      sessionRequests := sessionRequests.Remove(key);
      if b.desktopDeviceId != me {
        SendError(conn, MESSAGE_INVALID, None);
        return Fatal(WS_CLOSE_POLICY);
      }
      OpenSession(conn, frame, nowMs, me, request.phoneConnId);
    }

    /** Refuse when one of the devices is busy, otherwise store the session and tell the phone. */
    method OpenSession(conn: Id, frame: Frame, nowMs: int, me: Id, phoneConn: Id)
      requires sessions.sessions.Valid() && frame.body.SessionAccepted?
      modifies this`outbox, sessions
      ensures var b, m := frame.body, old(sessions.sessions);
              var busy := Spec.OpenSessionsUsing(m, me) != {} || Spec.OpenSessionsUsing(m, b.phoneDeviceId) != {};
              && sessions.sessions == (if busy then m else
                   m.Put(b.sessionId, Session(b.sessionId, b.desktopDeviceId, b.phoneDeviceId, conn, phoneConn, SIGNALING, nowMs)))
              && outbox == old(outbox) + (if busy then
                   [Delivery(conn, Spec.Reply(frame.id, Error(SESSION_CONFLICT)))]
                   + Spec.Send(handles, phoneConn, Spec.Plain(SessionRejected(SESSION_CONFLICT)))
                 else Spec.Send(handles, phoneConn, frame))
    {
      hide Spec.OpenSessionsUsing;
      var b := frame.body;
      var busy := sessions.FindOpenByDevice(me);
      if busy.None? {
        busy := sessions.FindOpenByDevice(b.phoneDeviceId);
      }
      if busy.Some? {
        SendError(conn, SESSION_CONFLICT, frame.id);
        Send(phoneConn, Spec.Plain(SessionRejected(SESSION_CONFLICT)));
        return;
      }
      sessions.Store(Session(b.sessionId, b.desktopDeviceId, b.phoneDeviceId, conn, phoneConn, SIGNALING, nowMs));
      Send(phoneConn, frame);
    }

    /** Forward the rejection to every pending request for this desktop, deleting while iterating. */
    method OnSessionRejected(conn: Id, frame: Frame) returns (r: InboundResult)
      requires Valid()
      modifies this
      ensures Did(Spec.OnSessionRejected(old(View()), conn, frame), old(outbox), r)
    {
      if !Plays(conn, Desktop) {
        SendError(conn, MESSAGE_INVALID, None);
        return Fatal(WS_CLOSE_POLICY);
      }
      var me := registry.conns[conn].deviceId.value;
      ForwardRejection(me, frame);
      r := Ok;
    }

    /** One turn of the loop: the `i`-th of the requests is deleted and answered when it is for this desktop. */
    method RejectOne(all: OMap<string, Request>, i: nat, me: Id, frame: Frame)
      requires all.Valid() && i < |all.order| && all.rows[all.order[i]].frame.body.SessionRequest?
      requires sessionRequests == all.RemoveAll(Taken(all.order[..i], Spec.RequestsFor(all, me)))
      modifies this`sessionRequests, this`outbox
      ensures sessionRequests == all.RemoveAll(Taken(all.order[..i + 1], Spec.RequestsFor(all, me)))
      ensures outbox == if all.order[i] in Spec.RequestsFor(all, me)
                        then old(outbox) + Spec.Send(handles, all.rows[all.order[i]].phoneConnId, frame) else old(outbox)
    {
      hide Excluding, Without, Taken;
      var key := all.order[i];
      TakenStep(all.order, Spec.RequestsFor(all, me), i);
      if all.rows[key].frame.body.desktopDeviceId == me {
        RemoveOneMore(all, Taken(all.order[..i], Spec.RequestsFor(all, me)), key);
        sessionRequests := sessionRequests.Remove(key);
        Send(all.rows[key].phoneConnId, frame);
      }
    }

    /** One turn with what it sends. */
    method ForwardTurn(all: OMap<string, Request>, i: nat, me: Id, frame: Frame, ghost before: seq<Delivery>)
      requires all.Valid() && i < |all.order| && all.rows[all.order[i]].frame.body.SessionRequest?
      requires sessionRequests == all.RemoveAll(Taken(all.order[..i], Spec.RequestsFor(all, me)))
      requires outbox == before + Spec.ForwardToPhones(Select(all.order[..i], Spec.RequestsFor(all, me)), all.rows, handles, frame)
      modifies this`sessionRequests, this`outbox
      ensures sessionRequests == all.RemoveAll(Taken(all.order[..i + 1], Spec.RequestsFor(all, me)))
      ensures outbox == before + Spec.ForwardToPhones(Select(all.order[..i + 1], Spec.RequestsFor(all, me)), all.rows, handles, frame)
    {
      hide Excluding, Without, Taken, Select, Spec.RequestsFor, Spec.Send, Spec.ForwardToPhones, NoRepeats, OMap.RemoveAll;
      ForwardStep(all, Spec.RequestsFor(all, me), i, handles, frame);
      RejectOne(all, i, me, frame);
    }

    method ForwardRejection(me: Id, frame: Frame)
      requires sessionRequests.Valid()
      requires forall k :: k in sessionRequests.rows ==> sessionRequests.rows[k].frame.body.SessionRequest?
      modifies this`sessionRequests, this`outbox
      ensures var all, mine := old(sessionRequests), Spec.RequestsFor(old(sessionRequests), me);
              && sessionRequests == all.RemoveAll(mine)
              && outbox == old(outbox) + Spec.ForwardToPhones(Select(all.order, mine), all.rows, handles, frame)
    {
      var all := sessionRequests;
      RemoveNothing(all);
      TakenAll(all, Spec.RequestsFor(all, me));
      NothingForwarded(all, Spec.RequestsFor(all, me), handles, frame);
      hide Excluding, Without, Taken, Select, Spec.RequestsFor, Spec.Send, Spec.ForwardToPhones, NoRepeats, OMap.RemoveAll;
      for i := 0 to |all.order|
        invariant sessionRequests == all.RemoveAll(Taken(all.order[..i], Spec.RequestsFor(all, me)))
        invariant outbox == old(outbox) + Spec.ForwardToPhones(Select(all.order[..i], Spec.RequestsFor(all, me)), all.rows, handles, frame)
      {
        ForwardTurn(all, i, me, frame, old(outbox));
      }
      assert all.order[..|all.order|] == all.order;
    }

    method OnSessionClose(conn: Id, frame: Frame) returns (r: InboundResult)
      requires Valid() && frame.body.SessionClose?
      modifies this, sessions
      ensures Did(Spec.OnSessionClose(old(View()), conn, frame), old(outbox), r)
    {
      r := Ok;
      if conn !in registry.conns || registry.conns[conn].deviceId.None? {
        return Fatal(WS_CLOSE_POLICY);
      }
      var k := frame.body.sessionId;
      if k !in sessions.sessions.rows {
        SendError(conn, SESSION_NOT_FOUND, frame.id);
        return;
      }
      var session := sessions.sessions.rows[k];
      assert I.SessionOk(View(), k, session);
      if session.desktopConnId != conn && session.phoneConnId != conn {
        SendError(conn, MESSAGE_INVALID, None);
        return Fatal(WS_CLOSE_POLICY);
      }
      sessions.Store(session.(state := CLOSED));
      Send(if session.desktopConnId == conn then session.phoneConnId else session.desktopConnId, frame);
    }

    method RelaySignal(conn: Id, frame: Frame, sessionId: Id, requireRole: Option<Role>) returns (r: InboundResult)
      modifies this
      ensures Did(Spec.RelaySignal(old(View()), conn, frame, sessionId, requireRole), old(outbox), r)
    {
      r := Ok;
      if conn !in registry.conns || registry.conns[conn].deviceId.None? {
        return Fatal(WS_CLOSE_POLICY);
      }
      if requireRole.Some? && registry.conns[conn].role != requireRole {
        SendError(conn, MESSAGE_INVALID, None);
        return Fatal(WS_CLOSE_POLICY);
      }
      if sessionId !in sessions.sessions.rows || sessions.sessions.rows[sessionId].state == CLOSED {
        SendError(conn, SESSION_NOT_FOUND, None);
        return;
      }
      var session := sessions.sessions.rows[sessionId];
      if session.desktopConnId != conn && session.phoneConnId != conn {
        SendError(conn, MESSAGE_INVALID, None);
        return Fatal(WS_CLOSE_POLICY);
      }
      Send(if session.desktopConnId == conn then session.phoneConnId else session.desktopConnId, frame);
    }

    // ----- dispatch ---------------------------------------------------------------

    /** Route one decoded frame; `pairId` and `nonce` are the random draws of the handlers that make one. */
    method Dispatch(conn: Id, frame: Frame, nowMs: int, pairId: Id, nonce: string) returns (r: InboundResult)
      requires Valid() && pairId !in pairings.pairings.rows
      modifies this, registry, pairings, sessions
      ensures Did(Spec.Dispatch(old(View()), conn, frame, nowMs, pairId, nonce), old(outbox), r)
      ensures Valid()
    {
      hide Spec.OnHello, Spec.OnAuthProof, Spec.DispatchBound, I.Inv;
      I.DispatchKeepsInv(View(), conn, frame, nowMs, pairId, nonce);
      if conn !in registry.conns {
        return Fatal(WS_CLOSE_POLICY);
      }
      if frame.body.Hello? {
        r := OnHello(conn, frame, nonce);
        return;
      }
      if frame.body.AuthProof? {
        r := OnAuthProof(conn, frame);
        return;
      }
      if registry.conns[conn].role.None? || registry.conns[conn].deviceId.None? {
        SendError(conn, MESSAGE_INVALID, None);
        return Fatal(WS_CLOSE_PROTOCOL_ERROR);
      }
      I.TouchKeepsInv(View(), conn, nowMs);
      registry.Touch(conn, nowMs);
      r := DispatchBound(conn, frame, nowMs, pairId);
    }

    /** The switch over the message type, for a connection that has said hello. */
    method DispatchBound(conn: Id, frame: Frame, nowMs: int, pairId: Id) returns (r: InboundResult)
      requires Valid()
      modifies this, pairings, sessions
      ensures Did(Spec.DispatchBound(old(View()), conn, frame, nowMs, pairId), old(outbox), r)
    {
      hide Spec.OnPairCreate, Spec.OnPairJoin, Spec.DecidePairing;
      hide Spec.OnSessionRequest, Spec.OnSessionAccepted, Spec.OnSessionRejected, Spec.OnSessionClose, Spec.RelaySignal;
      hide I.Inv;
      match frame.body {
        case PairCreate(_, _, _, _) => r := OnPairCreate(conn, frame, nowMs, pairId);
        case PairJoin(_, _, _, _, _, _) => r := OnPairJoin(conn, frame, nowMs);
        case PairAccept(k) => r := DecidePairing(conn, frame, k, true);
        case PairReject(k, _) => r := DecidePairing(conn, frame, k, false);
        case SessionRequest(_, _) => r := OnSessionRequest(conn, frame);
        case SessionAccepted(_, _, _) => r := OnSessionAccepted(conn, frame, nowMs);
        case SessionRejected(_) => r := OnSessionRejected(conn, frame);
        case SessionClose(_, _) => r := OnSessionClose(conn, frame);
        case SignalOffer(k, _) => r := RelaySignal(conn, frame, k, Some(Desktop));
        case SignalAnswer(k, _) => r := RelaySignal(conn, frame, k, Some(Phone));
        case SignalIce(k, _) => r := RelaySignal(conn, frame, k, None);
        case PresencePing(ts) =>
          Answer(conn, Spec.Plain(PresencePong(ts)));
          r := Ok;
        case _ =>
          SendError(conn, MESSAGE_INVALID, None);
          r := Fatal(WS_CLOSE_PROTOCOL_ERROR);
      }
    }

    // ----- a socket closes -------------------------------------------------------------

    /** The open pairings presented or joined by the connection, in insertion order. */
    method PairingsOf(connId: Id) returns (out: seq<Id>)
      requires pairings.pairings.Valid()
      ensures out == Select(pairings.pairings.order, Spec.OpenPairingsOf(pairings.pairings, connId))
    {
      var all := pairings.ListOpen();
      ghost var m := pairings.pairings;
      ghost var mine := Spec.OpenPairingsOf(m, connId);
      SelectFacts(m.order, OpenPairings(m));
      out := [];
      for i := 0 to |all|
        invariant out == Select(all[..i], mine)
      {
        assert all[..i + 1][..i] == all[..i];
        assert all[i] in m.rows && m.rows[all[i]].Open();
        var p := pairings.pairings.rows[all[i]];
        if p.desktopConnId == connId || p.phoneConnId == Some(connId) {
          out := out + [all[i]];
        }
      }
      assert all[..|all|] == all;
      SelectWithin(m.order, OpenPairings(m), mine);
      assert OpenPairings(m) * mine == mine;
    }

    method SessionsOf(connId: Id) returns (out: seq<Id>)
      requires sessions.sessions.Valid()
      ensures out == Select(sessions.sessions.order, Spec.OpenSessionsOf(sessions.sessions, connId))
    {
      var all := sessions.ListOpen();
      ghost var m := sessions.sessions;
      ghost var mine := Spec.OpenSessionsOf(m, connId);
      SelectFacts(m.order, OpenSessions(m));
      out := [];
      for i := 0 to |all|
        invariant out == Select(all[..i], mine)
      {
        assert all[..i + 1][..i] == all[..i];
        assert all[i] in m.rows && m.rows[all[i]].Open();
        var s := sessions.sessions.rows[all[i]];
        if s.desktopConnId == connId || s.phoneConnId == connId {
          out := out + [all[i]];
        }
      }
      assert all[..|all|] == all;
      SelectWithin(m.order, OpenSessions(m), mine);
      assert OpenSessions(m) * mine == mine;
    }

    /** Cancel one pairing and tell its phone, unless the phone is the connection that left. */
    method CancelOne(connId: Id, k: Id)
      requires k in pairings.pairings.rows && pairings.pairings.rows[k].pairId == k
      modifies this`outbox, pairings
      ensures pairings.pairings == old(pairings.pairings).Put(k, old(pairings.pairings.rows[k]).(state := CANCELLED))
      ensures outbox == old(outbox) + Spec.PairingNotice(old(pairings.pairings.rows[k]), handles, connId)
    {
      var p := pairings.pairings.rows[k];
      pairings.Store(p.(state := CANCELLED));
      if p.phoneConnId.Some? && p.phoneConnId.value != connId {
        Send(p.phoneConnId.value, Spec.Plain(PairRejected(p.pairId, PAIR_EXPIRED)));
      }
    }

    /** Close one session and tell the other participant. */
    method CloseOne(connId: Id, k: Id)
      requires k in sessions.sessions.rows && sessions.sessions.rows[k].sessionId == k
      modifies this`outbox, sessions
      ensures sessions.sessions == old(sessions.sessions).Put(k, old(sessions.sessions.rows[k]).(state := CLOSED))
      ensures outbox == old(outbox) + Spec.SessionNotice(old(sessions.sessions.rows[k]), handles, connId)
    {
      var s := sessions.sessions.rows[k];
      sessions.Store(s.(state := CLOSED));
      Send(if s.desktopConnId == connId then s.phoneConnId else s.desktopConnId, Spec.Plain(SessionClose(s.sessionId, "peer-left")));
    }

    /** One turn of the loop over the pairings to cancel. */
    method CancelNext(connId: Id, keys: seq<Id>, i: nat, ghost m: OMap<Id, Pairing>, ghost before: seq<Delivery>)
      requires i < |keys| && keys[i] !in keys[..i] && keys[i] in m.rows && m.rows[keys[i]].pairId == keys[i]
      requires pairings.pairings == Spec.CancelPairings(m, KeysTo(keys, i))
      requires outbox == before + Spec.PairingNotices(keys[..i], m.rows, handles, connId)
      modifies this`outbox, pairings
      ensures pairings.pairings == Spec.CancelPairings(m, KeysTo(keys, i + 1))
      ensures outbox == before + Spec.PairingNotices(keys[..i + 1], m.rows, handles, connId)
    {
      hide Spec.CancelPairings, Spec.PairingNotice, Spec.PairingNotices, KeysTo;
      PairingNoticesStep(keys, i, m.rows, handles, connId);
      OneMoreKey(keys, i);
      CancelOneMore(m, KeysTo(keys, i), keys[i]);
      CancelOne(connId, keys[i]);
    }

    method CancelOpenPairings(connId: Id)
      requires pairings.pairings.Valid()
      requires forall k :: k in pairings.pairings.rows ==> pairings.pairings.rows[k].pairId == k
      modifies this`outbox, pairings
      ensures pairings.pairings == Spec.CancelPairings(old(pairings.pairings), Spec.OpenPairingsOf(old(pairings.pairings), connId))
      ensures var m := old(pairings.pairings);
              outbox == old(outbox)
                        + Spec.PairingNotices(Select(m.order, Spec.OpenPairingsOf(m, connId)), m.rows, handles, connId)
    {
      var keys := PairingsOf(connId);
      ghost var m := pairings.pairings;
      ghost var mine := Spec.OpenPairingsOf(m, connId);
      SelectedKeys(m.order, mine, keys);
      CancelNone(m);
      NoNotices(handles, connId);
      hide Spec.CancelPairings, Spec.PairingNotice, Spec.PairingNotices, Spec.Send, Select, KeysTo, NoRepeats;
      for i := 0 to |keys|
        invariant pairings.pairings == Spec.CancelPairings(m, KeysTo(keys, i))
        invariant outbox == old(outbox) + Spec.PairingNotices(keys[..i], m.rows, handles, connId)
      {
        assert keys[i] in mine;
        CancelNext(connId, keys, i, m, old(outbox));
      }
      assert keys[..|keys|] == keys;
    }

    /** One turn of the loop over the sessions to close. */
    method CloseNext(connId: Id, keys: seq<Id>, i: nat, ghost m: OMap<Id, Session>, ghost before: seq<Delivery>)
      requires i < |keys| && keys[i] !in keys[..i] && keys[i] in m.rows && m.rows[keys[i]].sessionId == keys[i]
      requires sessions.sessions == Spec.CloseSessions(m, KeysTo(keys, i))
      requires outbox == before + Spec.SessionNotices(keys[..i], m.rows, handles, connId)
      modifies this`outbox, sessions
      ensures sessions.sessions == Spec.CloseSessions(m, KeysTo(keys, i + 1))
      ensures outbox == before + Spec.SessionNotices(keys[..i + 1], m.rows, handles, connId)
    {
      hide Spec.CloseSessions, Spec.SessionNotice, Spec.SessionNotices, KeysTo;
      SessionNoticesStep(keys, i, m.rows, handles, connId);
      OneMoreKey(keys, i);
      CloseOneMore(m, KeysTo(keys, i), keys[i]);
      CloseOne(connId, keys[i]);
    }

    method CloseOpenSessions(connId: Id)
      requires sessions.sessions.Valid()
      requires forall k :: k in sessions.sessions.rows ==> sessions.sessions.rows[k].sessionId == k
      modifies this`outbox, sessions
      ensures sessions.sessions == Spec.CloseSessions(old(sessions.sessions), Spec.OpenSessionsOf(old(sessions.sessions), connId))
      ensures var m := old(sessions.sessions);
              outbox == old(outbox)
                        + Spec.SessionNotices(Select(m.order, Spec.OpenSessionsOf(m, connId)), m.rows, handles, connId)
    {
      var keys := SessionsOf(connId);
      ghost var m := sessions.sessions;
      ghost var mine := Spec.OpenSessionsOf(m, connId);
      SelectedKeys(m.order, mine, keys);
      CloseNone(m);
      NoNotices(handles, connId);
      hide Spec.CloseSessions, Spec.SessionNotice, Spec.SessionNotices, Spec.Send, Select, KeysTo, NoRepeats;
      for i := 0 to |keys|
        invariant sessions.sessions == Spec.CloseSessions(m, KeysTo(keys, i))
        invariant outbox == old(outbox) + Spec.SessionNotices(keys[..i], m.rows, handles, connId)
      {
        assert keys[i] in mine;
        CloseNext(connId, keys, i, m, old(outbox));
      }
      assert keys[..|keys|] == keys;
    }

    /** Delete the connection's pending requests while iterating over them. */
    method DropRequests(connId: Id)
      requires sessionRequests.Valid()
      modifies this`sessionRequests
      ensures sessionRequests == old(sessionRequests).RemoveAll(Spec.RequestsFrom(old(sessionRequests), connId))
    {
      var all := sessionRequests;
      ghost var mine := Spec.RequestsFrom(all, connId);
      RemoveNothing(all);
      TakenAll(all, mine);
      hide Excluding, Without, Taken;
      for i := 0 to |all.order|
        invariant sessionRequests == all.RemoveAll(Taken(all.order[..i], mine))
      {
        var key := all.order[i];
        TakenStep(all.order, mine, i);
        if all.rows[key].phoneConnId == connId {
          RemoveOneMore(all, Taken(all.order[..i], mine), key);
          sessionRequests := sessionRequests.Remove(key);
        }
      }
    }

    /** Drop the connection's own entries; tells whether it was registered. */
    method Forget(connId: Id) returns (known: bool)
      modifies this`handles, this`authenticated, this`pendingAuth, registry
      ensures known <==> connId in old(registry.conns)
      ensures View() == Spec.Forget(old(View()), connId)
    {
      handles := handles - {connId};
      authenticated := authenticated - {connId};
      pendingAuth := pendingAuth - {connId};
      var reg := registry.Unregister(connId);
      known := reg.Some?;
    }

    method Unwind(connId: Id)
      requires sessionRequests.Valid() && pairings.pairings.Valid() && sessions.sessions.Valid()
      requires forall k :: k in pairings.pairings.rows ==> pairings.pairings.rows[k].pairId == k
      requires forall k :: k in sessions.sessions.rows ==> sessions.sessions.rows[k].sessionId == k
      modifies this`outbox, this`sessionRequests, pairings, sessions
      ensures Did(Spec.Unwind(old(View()), connId), old(outbox), Ok)
    {
      hide Select, Excluding, Spec.CancelPairings, Spec.CloseSessions, Spec.PairingNotices, Spec.SessionNotices;
      hide Spec.OpenPairingsOf, Spec.OpenSessionsOf, Spec.RequestsFrom;
      CancelOpenPairings(connId);
      CloseOpenSessions(connId);
      DropRequests(connId);
    }

    /** The transport reports a dead socket: unwind dependent state. */
    method HandleConnClosed(connId: Id)
      requires Valid()
      modifies this, registry, pairings, sessions
      ensures Did(Spec.OnConnClosed(old(View()), connId), old(outbox), Ok)
      ensures Valid()
    {
      hide I.Inv, Spec.Unwind;
      I.ConnClosedKeepsInv(View(), connId);
      RecordsKnowTheirIds(View());
      var known := Forget(connId);
      if known {
        Unwind(connId);
      }
    }
  }
}
