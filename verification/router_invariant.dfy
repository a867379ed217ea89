/**
 * One inductive invariant over the router's seven tables, and the proof that
 * every handler keeps it.
 */
module RouterInvariant {
  import opened Basics
  import opened OrderedMap
  import opened SignalingTypes
  import opened RouterSpec

  // ----- the invariant -----------------------------------------------------

  /** Every bound connection is the one the device index names, and the index names nothing else. */
  ghost predicate IndexInverse(conns: map<Id, Conn>, byDevice: map<Id, Id>) {
    && (forall c :: c in conns ==> (conns[c].role.Some? <==> conns[c].deviceId.Some?))
    && (forall c :: c in conns && conns[c].deviceId.Some?
          ==> conns[c].deviceId.value in byDevice && byDevice[conns[c].deviceId.value] == c)
    && (forall d :: d in byDevice ==> byDevice[d] in conns && conns[byDevice[d]].deviceId == Some(d))
  }

  /** Live connections are the ones with a handle; only bound ones await a proof. */
  ghost predicate ConnsOk(st: State) {
    && IndexInverse(st.conns, st.byDevice)
    && st.handles == st.conns.Keys
    && (forall c :: c in st.pendingAuth ==> st.Bound(c))
  }

  ghost predicate OrdersValid(st: State) {
    st.requests.Valid() && st.pairings.Valid() && st.sessions.Valid()
  }

  /** An open pairing was started from, and is joined by, live connections in the right roles. */
  ghost predicate PairingOk(st: State, k: Id, p: Pairing) {
    && p.pairId == k
    && (p.Open() ==> st.BoundAs(p.desktopConnId, Desktop, p.desktopDeviceId) && st.MayUse(p.desktopConnId))
    && (p.state == CREATED ==> p.phoneConnId.None?)
    && (p.state == JOINED ==>
          p.HasPhone() && st.HasRole(p.phoneConnId.value, Phone) && st.MayUse(p.phoneConnId.value))
    && (p.state == CONSUMED ==> p.HasPhone())
  }

  /** Two different open pairings are never presented by the same desktop connection. */
  ghost predicate OnePairingPerDesktop(rows: map<Id, Pairing>) {
    forall k, l | k in rows && l in rows && rows[k].Open() && rows[l].Open() ::
      rows[k].desktopConnId == rows[l].desktopConnId ==> k == l
  }

  ghost predicate PairingsOk(st: State) {
    forall k :: k in st.pairings.rows ==> PairingOk(st, k, st.pairings.rows[k])
  }

  /** A pending request comes from the live phone connection of the device named in its key. */
  ghost predicate RequestOk(st: State, key: string, r: Request) {
    && r.frame.body.SessionRequest?
    && st.HasRole(r.phoneConnId, Phone)
    && st.MayUse(r.phoneConnId)
    && key == RequestKey(r.frame.body.desktopDeviceId, st.conns[r.phoneConnId].deviceId.value)
  }

  ghost predicate RequestsOk(st: State) {
    forall key :: key in st.requests.rows ==> RequestOk(st, key, st.requests.rows[key])
  }

  /** An open session joins two live connections bound to exactly the recorded roles and devices. */
  ghost predicate SessionOk(st: State, k: Id, s: Session) {
    && s.sessionId == k
    && (s.Open() ==>
          && st.BoundAs(s.desktopConnId, Desktop, s.desktopDeviceId)
          && st.BoundAs(s.phoneConnId, Phone, s.phoneDeviceId)
          && st.MayUse(s.phoneConnId))
  }

  ghost predicate SessionsOk(st: State) {
    forall k :: k in st.sessions.rows ==> SessionOk(st, k, st.sessions.rows[k])
  }

  predicate Share(s: Session, t: Session) { s.Uses(t.desktopDeviceId) || s.Uses(t.phoneDeviceId) }

  /** No device is in two open sessions. */
  ghost predicate OneSessionPerDevice(rows: map<Id, Session>) {
    forall k, l | k in rows && l in rows && rows[k].Open() && rows[l].Open() :: Share(rows[k], rows[l]) ==> k == l
  }

  ghost predicate Inv(st: State) {
    && ConnsOk(st)
    && OrdersValid(st)
    && PairingsOk(st)
    && OnePairingPerDesktop(st.pairings.rows)
    && RequestsOk(st)
    && SessionsOk(st)
    && OneSessionPerDevice(st.sessions.rows)
  }

  // ----- frames: which tables a fact depends on --------------------------------

  /** Every binding and permission of `st` survives in `st'`, except perhaps those of `gone`. */
  ghost predicate Keeps(st: State, st': State, gone: set<Id>) {
    && st'.mode == st.mode
    && (forall c :: c in st.conns && st.Bound(c) && c !in gone
          ==> c in st'.conns && st'.conns[c].role == st.conns[c].role && st'.conns[c].deviceId == st.conns[c].deviceId)
    && (forall c :: c in st.authenticated && c !in gone ==> c in st'.authenticated)
  }

  lemma PairingsFrame(st: State, st': State, gone: set<Id>)
    requires PairingsOk(st) && Keeps(st, st', gone)
    requires forall k :: k in st'.pairings.rows ==>
               k in st.pairings.rows
               && (st'.pairings.rows[k] == st.pairings.rows[k]
                   || (st.pairings.rows[k].Open() && st'.pairings.rows[k] == st.pairings.rows[k].(state := CANCELLED)))
    requires forall k, c :: k in st'.pairings.rows && c in gone && st'.pairings.rows[k].Open() ==> !st'.pairings.rows[k].Mentions(c)
    ensures PairingsOk(st')
  {
    forall k | k in st'.pairings.rows ensures PairingOk(st', k, st'.pairings.rows[k]) {
      assert PairingOk(st, k, st.pairings.rows[k]);
    }
  }

  lemma RequestsFrame(st: State, st': State, gone: set<Id>)
    requires RequestsOk(st) && Keeps(st, st', gone)
    requires forall k :: k in st'.requests.rows ==>
               k in st.requests.rows && st'.requests.rows[k] == st.requests.rows[k] && st.requests.rows[k].phoneConnId !in gone
    ensures RequestsOk(st')
  {
    forall k | k in st'.requests.rows ensures RequestOk(st', k, st'.requests.rows[k]) {
      assert RequestOk(st, k, st.requests.rows[k]);
    }
  }

  lemma SessionsFrame(st: State, st': State, gone: set<Id>)
    requires SessionsOk(st) && Keeps(st, st', gone)
    requires forall k :: k in st'.sessions.rows ==>
               k in st.sessions.rows
               && (st'.sessions.rows[k] == st.sessions.rows[k]
                   || st'.sessions.rows[k] == st.sessions.rows[k].(state := CLOSED))
    requires forall k, c :: k in st'.sessions.rows && c in gone && st'.sessions.rows[k].Open() ==> !st'.sessions.rows[k].Mentions(c)
    ensures SessionsOk(st')
  {
    forall k | k in st'.sessions.rows ensures SessionOk(st', k, st'.sessions.rows[k]) {
      assert SessionOk(st, k, st.sessions.rows[k]);
    }
  }

  /** A step that leaves requests, pairings and sessions alone and keeps every binding keeps the invariant. */
  lemma TablesFrame(st: State, st': State)
    requires Inv(st) && ConnsOk(st') && Keeps(st, st', {})
    requires st'.requests == st.requests && st'.pairings == st.pairings && st'.sessions == st.sessions
    ensures Inv(st')
  {
    PairingsFrame(st, st', {});
    RequestsFrame(st, st', {});
    SessionsFrame(st, st', {});
  }

  // ----- keys of pending requests --------------------------------------------

  /** The key text names its two devices: no id contains the separator. */
  lemma RequestKeyInjective(d1: Id, p1: Id, d2: Id, p2: Id)
    requires RequestKey(d1, p1) == RequestKey(d2, p2)
    ensures d1 == d2 && p1 == p2
  {
    var k1, k2 := RequestKey(d1, p1), RequestKey(d2, p2);
    assert k1[|d1.text|] == '|' && k2[|d2.text|] == '|';
    assert forall i :: 0 <= i < |d1.text| ==> k1[i] == d1.text[i] && IdChar(k1[i]);
    assert forall i :: 0 <= i < |d2.text| ==> k2[i] == d2.text[i] && IdChar(k2[i]);
    assert |d1.text| == |d2.text|;
    assert d1.text == k1[..|d1.text|] && d2.text == k2[..|d2.text|];
    assert p1.text == k1[|d1.text| + 1..] && p2.text == k2[|d2.text| + 1..];
  }

  // ----- every handler keeps the invariant --------------------------------------

  lemma OpenKeepsInv(st: State, c: Id, now: int)
    requires Inv(st) && c !in st.conns
    ensures Inv(OnOpen(st, c, now))
  {
    TablesFrame(st, OnOpen(st, c, now));
  }

  lemma BindKeepsIndex(conns: map<Id, Conn>, byDevice: map<Id, Id>, c: Id, r: Role, d: Id, t: int)
    requires IndexInverse(conns, byDevice) && c in conns && conns[c].role.None?
    requires !(d in byDevice && byDevice[d] != c && byDevice[d] in conns)
    ensures IndexInverse(conns[c := Conn(Some(r), Some(d), t)], byDevice[d := c])
  {
    assert d !in byDevice;
  }

  lemma HelloKeepsInv(st: State, c: Id, frame: Frame, nonce: string)
    requires Inv(st) && frame.body.Hello?
    ensures Inv(OnHello(st, c, frame, nonce).st)
  {
    var st' := OnHello(st, c, frame, nonce).st;
    if st' != st {
      BindKeepsIndex(st.conns, st.byDevice, c, frame.body.role, frame.body.deviceId, st.conns[c].lastSeenMs);
      TablesFrame(st, st');
    }
  }

  lemma TouchKeepsInv(st: State, c: Id, now: int)
    requires Inv(st)
    ensures Inv(Touch(st, c, now))
  {
    if c in st.conns {
      var st' := Touch(st, c, now);
      assert st'.conns.Keys == st.conns.Keys;
      TablesFrame(st, st');
    }
  }

  lemma AuthFailureKeepsInv(st: State, c: Id)
    requires Inv(st)
    ensures Inv(AuthFailure(st, c).st)
  {
    TablesFrame(st, AuthFailure(st, c).st);
  }

  lemma ResumeKeepsInv(st: State, task: AuthTask, fingerprint: string, ok: bool)
    requires Inv(st)
    ensures Inv(ResumeFingerprint(st, task, fingerprint).st)
    ensures Inv(ResumeVerify(st, task, ok).st)
  {
    AuthFailureKeepsInv(st, task.connId);
    var st' := st.(devices := Enroll(st.devices, task.deviceId, task.proof).1,
                   pendingAuth := st.pendingAuth - {task.connId},
                   authenticated := st.authenticated + {task.connId});
    TablesFrame(st, st');
  }

  lemma PairingPutKeepsInv(st: State, k: Id, p: Pairing)
    requires Inv(st) && PairingOk(st, k, p)
    requires p.Open() ==> forall l | l in st.pairings.rows && l != k && st.pairings.rows[l].Open() ::
                            st.pairings.rows[l].desktopConnId != p.desktopConnId
    ensures Inv(st.(pairings := st.pairings.Put(k, p)))
  {
    var st' := st.(pairings := st.pairings.Put(k, p));
    PutValid(st.pairings, k, p);
    forall l | l in st'.pairings.rows ensures PairingOk(st', l, st'.pairings.rows[l]) {
      if l != k { assert PairingOk(st, l, st.pairings.rows[l]); }
    }
    RequestsFrame(st, st', {});
    SessionsFrame(st, st', {});
  }

  /** Moving a pairing on, or closing it, while it stays with its desktop connection. */
  lemma PairingUpdateKeepsInv(st: State, k: Id, p: Pairing)
    requires Inv(st) && k in st.pairings.rows && PairingOk(st, k, p)
    requires p.Open() ==> st.pairings.rows[k].Open() && p.desktopConnId == st.pairings.rows[k].desktopConnId
    ensures Inv(st.(pairings := st.pairings.Put(k, p)))
  {
    PairingPutKeepsInv(st, k, p);
  }

  /** After `Supersede` the connection presents no open pairing: the first one met was the only one. */
  lemma SupersedeLeavesNone(st: State, c: Id)
    requires Inv(st)
    ensures OpenPairingsPresentedBy(Supersede(st.pairings, c), c) == {}
    ensures Inv(st.(pairings := Supersede(st.pairings, c)))
  {
    var mine := OpenPairingsPresentedBy(st.pairings, c);
    var open := First(st.pairings.order, mine);
    if open.Some? {
      PairingUpdateKeepsInv(st, open.value, st.pairings.rows[open.value].(state := CANCELLED));
    } else {
      assert forall k :: k in st.pairings.rows ==> k in st.pairings.order;
    }
  }

  lemma PairCreateKeepsInv(st: State, c: Id, frame: Frame, now: int, pairId: Id)
    requires Inv(st) && frame.body.PairCreate? && pairId !in st.pairings.rows
    ensures Inv(OnPairCreate(st, c, frame, now, pairId).st)
  {
    if st.MayUse(c) && st.HasRole(c, Desktop) {
      SupersedeLeavesNone(st, c);
      var st1 := st.(pairings := Supersede(st.pairings, c));
      var p := NewPairing(pairId, c, st.conns[c].deviceId.value, frame.body, now);
      forall l | l in st1.pairings.rows && st1.pairings.rows[l].Open()
        ensures st1.pairings.rows[l].desktopConnId != c
      {
        assert l !in OpenPairingsPresentedBy(st1.pairings, c);
      }
      PairingPutKeepsInv(st1, pairId, p);
    }
  }

  lemma PairJoinKeepsInv(st: State, c: Id, frame: Frame, now: int)
    requires Inv(st) && frame.body.PairJoin?
    ensures Inv(OnPairJoin(st, c, frame, now).st)
  {
    var k := frame.body.pairId;
    if k in st.pairings.rows && st.HasRole(c, Phone) && st.MayUse(c) && st.pairings.rows[k].Open() {
      var p := st.pairings.rows[k];
      assert PairingOk(st, k, p);
      if now >= p.expiresAtMs {
        PairingUpdateKeepsInv(st, k, p.(state := EXPIRED));
      } else {
        PairingUpdateKeepsInv(st, k, Joined(p, c, frame.body));
      }
    }
  }

  lemma DecideKeepsInv(st: State, c: Id, frame: Frame, k: Id, accept: bool)
    requires Inv(st)
    ensures Inv(DecidePairing(st, c, frame, k, accept).st)
  {
    if k in st.pairings.rows && st.pairings.rows[k].state == JOINED {
      var p := st.pairings.rows[k];
      assert PairingOk(st, k, p);
      PairingUpdateKeepsInv(st, k, p.(state := if accept then CONSUMED else REJECTED));
    }
  }

  lemma SessionRequestKeepsInv(st: State, c: Id, frame: Frame)
    requires Inv(st) && frame.body.SessionRequest?
    ensures Inv(OnSessionRequest(st, c, frame).st)
  {
    if st.MayUse(c) && st.HasRole(c, Phone) {
      var key := RequestKey(frame.body.desktopDeviceId, st.conns[c].deviceId.value);
      var st' := st.(requests := st.requests.Put(key, Request(c, frame)));
      PutValid(st.requests, key, Request(c, frame));
      forall l | l in st'.requests.rows ensures RequestOk(st', l, st'.requests.rows[l]) {
        if l != key { assert RequestOk(st, l, st.requests.rows[l]); }
      }
      PairingsFrame(st, st', {});
      SessionsFrame(st, st', {});
    }
  }

  lemma DropRequestsKeepsInv(st: State, ks: set<string>)
    requires Inv(st)
    ensures Inv(st.(requests := st.requests.RemoveAll(ks)))
  {
    var st' := st.(requests := st.requests.RemoveAll(ks));
    RemoveAllValid(st.requests, ks);
    RequestsFrame(st, st', {});
    PairingsFrame(st, st', {});
    SessionsFrame(st, st', {});
  }

  lemma SessionPutKeepsInv(st: State, k: Id, s: Session)
    requires Inv(st) && SessionOk(st, k, s)
    requires s.Open() ==> forall l | l in st.sessions.rows && l != k && st.sessions.rows[l].Open() ::
                            !Share(st.sessions.rows[l], s)
    ensures Inv(st.(sessions := st.sessions.Put(k, s)))
  {
    hide PairingOk, RequestOk, IndexInverse, OnePairingPerDesktop;
    var st' := st.(sessions := st.sessions.Put(k, s));
    PutValid(st.sessions, k, s);
    forall l | l in st'.sessions.rows ensures SessionOk(st', l, st'.sessions.rows[l]) {
      if l != k { assert SessionOk(st, l, st.sessions.rows[l]); }
    }
    RequestsFrame(st, st', {});
    PairingsFrame(st, st', {});
  }

  /** What an accepted session is built from: a pending request made by the phone it names. */
  lemma RequestNamesPhone(st: State, d: Id, phone: Id)
    requires RequestsOk(st) && RequestKey(d, phone) in st.requests.rows
    ensures st.BoundAs(st.requests.rows[RequestKey(d, phone)].phoneConnId, Phone, phone)
    ensures st.MayUse(st.requests.rows[RequestKey(d, phone)].phoneConnId)
  {
    var key := RequestKey(d, phone);
    var r := st.requests.rows[key];
    assert RequestOk(st, key, r);
    RequestKeyInjective(d, phone, r.frame.body.desktopDeviceId, st.conns[r.phoneConnId].deviceId.value);
  }

  lemma SessionAcceptedKeepsInv(st: State, c: Id, frame: Frame, now: int)
    requires Inv(st) && frame.body.SessionAccepted?
    ensures Inv(OnSessionAccepted(st, c, frame, now).st)
  {
    var b := frame.body;
    if st.HasRole(c, Desktop) {
      var d := st.conns[c].deviceId.value;
      var key := RequestKey(d, b.phoneDeviceId);
      if key in st.requests.rows {
        RequestNamesPhone(st, d, b.phoneDeviceId);
        RemoveValid(st.requests, key);
        DropRequestsKeepsInv(st, {key});
        var st' := st.(requests := st.requests.Remove(key));
        if b.desktopDeviceId == d && OpenSessionsUsing(st.sessions, d) == {} && OpenSessionsUsing(st.sessions, b.phoneDeviceId) == {} {
          var s := Session(b.sessionId, b.desktopDeviceId, b.phoneDeviceId, c, st.requests.rows[key].phoneConnId, SIGNALING, now);
          forall l | l in st.sessions.rows && st.sessions.rows[l].Open()
            ensures !Share(st.sessions.rows[l], s)
          {
            assert l !in OpenSessionsUsing(st.sessions, d) && l !in OpenSessionsUsing(st.sessions, b.phoneDeviceId);
          }
          SessionPutKeepsInv(st', b.sessionId, s);
        }
      }
    }
  }

  lemma SessionRejectedKeepsInv(st: State, c: Id, frame: Frame)
    requires Inv(st)
    ensures Inv(OnSessionRejected(st, c, frame).st)
  {
    if st.HasRole(c, Desktop) {
      DropRequestsKeepsInv(st, RequestsFor(st.requests, st.conns[c].deviceId.value));
    }
  }

  lemma SessionCloseKeepsInv(st: State, c: Id, frame: Frame)
    requires Inv(st) && frame.body.SessionClose?
    ensures Inv(OnSessionClose(st, c, frame).st)
  {
    var k := frame.body.sessionId;
    if k in st.sessions.rows {
      assert SessionOk(st, k, st.sessions.rows[k]);
      SessionPutKeepsInv(st, k, st.sessions.rows[k].(state := CLOSED));
    }
  }

  predicate PairBody(b: Body) { b.PairCreate? || b.PairJoin? || b.PairAccept? || b.PairReject? }

  predicate SessionBody(b: Body) { b.SessionRequest? || b.SessionAccepted? || b.SessionRejected? || b.SessionClose? }

  lemma PairFrameKeepsInv(st: State, c: Id, frame: Frame, now: int, pairId: Id)
    requires Inv(st) && pairId !in st.pairings.rows
    requires PairBody(frame.body)
    ensures Inv(DispatchBound(st, c, frame, now, pairId).st)
  {
    match frame.body
    case PairCreate(_, _, _, _) => PairCreateKeepsInv(st, c, frame, now, pairId);
    case PairJoin(_, _, _, _, _, _) => PairJoinKeepsInv(st, c, frame, now);
    case PairAccept(k) => DecideKeepsInv(st, c, frame, k, true);
    case PairReject(k, _) => DecideKeepsInv(st, c, frame, k, false);
  }

  lemma SessionFrameKeepsInv(st: State, c: Id, frame: Frame, now: int, pairId: Id)
    requires Inv(st)
    requires SessionBody(frame.body)
    ensures Inv(DispatchBound(st, c, frame, now, pairId).st)
  {
    match frame.body
    case SessionRequest(_, _) => SessionRequestKeepsInv(st, c, frame);
    case SessionAccepted(_, _, _) => SessionAcceptedKeepsInv(st, c, frame, now);
    case SessionRejected(_) => SessionRejectedKeepsInv(st, c, frame);
    case SessionClose(_, _) => SessionCloseKeepsInv(st, c, frame);
  }

  /** Relays, pings and messages a client may not send change no table. */
  lemma OtherFramesChangeNothing(st: State, c: Id, frame: Frame, now: int, pairId: Id)
    requires !PairBody(frame.body) && !SessionBody(frame.body)
    ensures DispatchBound(st, c, frame, now, pairId).st == st
  {
  }

  lemma DispatchBoundKeepsInv(st: State, c: Id, frame: Frame, now: int, pairId: Id)
    requires Inv(st) && pairId !in st.pairings.rows
    ensures Inv(DispatchBound(st, c, frame, now, pairId).st)
  {
    if PairBody(frame.body) {
      PairFrameKeepsInv(st, c, frame, now, pairId);
    } else if SessionBody(frame.body) {
      SessionFrameKeepsInv(st, c, frame, now, pairId);
    } else {
      OtherFramesChangeNothing(st, c, frame, now, pairId);
    }
  }

  /** Every frame, from any connection in any state, keeps the invariant. */
  lemma DispatchKeepsInv(st: State, c: Id, frame: Frame, now: int, pairId: Id, nonce: string)
    requires Inv(st) && pairId !in st.pairings.rows
    ensures Inv(Dispatch(st, c, frame, now, pairId, nonce).st)
  {
    if frame.body.Hello? {
      HelloKeepsInv(st, c, frame, nonce);
    } else {
      TouchKeepsInv(st, c, now);
      DispatchBoundKeepsInv(Touch(st, c, now), c, frame, now, pairId);
    }
  }

  lemma UnregisterKeepsIndex(st: State, c: Id)
    requires IndexInverse(st.conns, st.byDevice)
    ensures IndexInverse(Unregister(st, c).conns, Unregister(st, c).byDevice)
  {
  }

  lemma ConnClosedKeepsConns(st: State, c: Id)
    requires ConnsOk(st)
    ensures ConnsOk(OnConnClosed(st, c).st) && Keeps(st, OnConnClosed(st, c).st, {c})
  {
    UnregisterKeepsIndex(st, c);
  }

  lemma ConnClosedKeepsOnePairing(st: State, c: Id)
    requires OnePairingPerDesktop(st.pairings.rows)
    ensures OnePairingPerDesktop(OnConnClosed(st, c).st.pairings.rows)
  {
    assert OnConnClosed(st, c).st.pairings.rows.Keys == st.pairings.rows.Keys;
  }

  lemma ConnClosedKeepsPairings(st: State, c: Id)
    requires ConnsOk(st) && PairingsOk(st)
    ensures PairingsOk(OnConnClosed(st, c).st)
  {
    var st' := OnConnClosed(st, c).st;
    ConnClosedKeepsConns(st, c);
    forall k | k in st'.pairings.rows && st'.pairings.rows[k].Open()
      ensures !st'.pairings.rows[k].Mentions(c)
    {
      assert PairingOk(st, k, st.pairings.rows[k]);
    }
    PairingsFrame(st, st', {c});
  }

  lemma ConnClosedKeepsSessions(st: State, c: Id)
    requires ConnsOk(st) && SessionsOk(st) && OneSessionPerDevice(st.sessions.rows)
    ensures SessionsOk(OnConnClosed(st, c).st) && OneSessionPerDevice(OnConnClosed(st, c).st.sessions.rows)
  {
    hide OnConnClosed, ConnsOk;
    var st' := OnConnClosed(st, c).st;
    ConnClosedKeepsConns(st, c);
    ClosedSessionRows(st, c);
    forall k | k in st'.sessions.rows && st'.sessions.rows[k].Open()
      ensures !st'.sessions.rows[k].Mentions(c)
    {
      assert SessionOk(st, k, st.sessions.rows[k]);
    }
    SessionsFrame(st, st', {c});
  }

  lemma ClosedSessionRows(st: State, c: Id)
    ensures var m, m' := st.sessions.rows, OnConnClosed(st, c).st.sessions.rows;
            && m'.Keys == m.Keys
            && forall k :: k in m ==>
                 m'[k] == (if c in st.conns && m[k].Open() && m[k].Mentions(c) then m[k].(state := CLOSED) else m[k])
  {
    hide PairingNotices, SessionNotices, CancelPairings, Select, Excluding;
  }

  lemma ConnClosedKeepsRequests(st: State, c: Id)
    requires ConnsOk(st) && RequestsOk(st)
    ensures RequestsOk(OnConnClosed(st, c).st)
  {
    var st' := OnConnClosed(st, c).st;
    ConnClosedKeepsConns(st, c);
    forall k | k in st'.requests.rows ensures st.requests.rows[k].phoneConnId != c {
      assert RequestOk(st, k, st.requests.rows[k]);
    }
    RequestsFrame(st, st', {c});
  }

  lemma ConnClosedKeepsOrders(st: State, c: Id)
    requires OrdersValid(st)
    ensures OrdersValid(OnConnClosed(st, c).st)
  {
    RemoveAllValid(st.requests, RequestsFrom(st.requests, c));
  }

  /** Closing a socket unwinds every open pairing, session and request of the connection. */
  lemma ConnClosedKeepsInv(st: State, c: Id)
    requires Inv(st)
    ensures Inv(OnConnClosed(st, c).st)
  {
    ConnClosedKeepsConns(st, c);
    ConnClosedKeepsOnePairing(st, c);
    ConnClosedKeepsPairings(st, c);
    ConnClosedKeepsSessions(st, c);
    ConnClosedKeepsRequests(st, c);
    ConnClosedKeepsOrders(st, c);
  }
}
