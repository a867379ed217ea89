/**
 * Whole runs of the signaling service: sockets open, deliver frames and close
 * in any order, and suspended proofs resume whenever they like. Connection and
 * pairing ids are random, so a run never draws one twice.
 */
module RouterRuns {
  import opened Basics
  import opened OrderedMap
  import opened SignalingTypes
  import opened RouterSpec
  import opened RouterInvariant
  import opened RouterSteps
  import Transcript

  /** The ideal primitives of the service: key fingerprints and signature checks. */
  datatype Crypto = Crypto(fingerprintOf: string -> string, verify: (string, seq<Transcript.Byte>, string) -> bool)

  datatype Setup = Setup(crypto: Crypto, mode: AuthMode, devices: map<Id, Device>)

  datatype TaskStatus = Suspended | Refused | Succeeded
  datatype TaskRecord = TaskRecord(task: AuthTask, status: TaskStatus)

  datatype Event =
    | Open(c: Id, now: int)
    | Recv(c: Id, frame: Frame, now: int, pairId: Id, nonce: string)
    | Malformed(c: Id, code: ErrorCode)
    | Closed(c: Id)
    | FingerprintDone(task: nat)
    | VerifyDone(task: nat)
    | RevokeDevice(d: Id, now: int)

  /** The router, its suspended and finished proofs, every connection id drawn so far and every frame sent. */
  datatype World = World(st: State, tasks: seq<TaskRecord>, used: set<Id>, outbox: seq<Delivery>)

  function Transcribe(nonce: string, d: Id): seq<Transcript.Byte> {
    Transcript.EncodeFields(Transcript.FieldBytes(AuthFields(nonce, d)))
  }

  /** The verdict of the signature check a suspended proof waits for. */
  predicate SignatureOk(crypto: Crypto, task: AuthTask) {
    crypto.verify(task.proof.spki, Transcribe(task.nonce, task.deviceId), task.proof.signature)
  }

  predicate Enabled(w: World, ev: Event) {
    match ev
    case Open(c, _) => c !in w.used
    case Recv(_, _, _, pairId, _) => pairId !in w.st.pairings.rows
    case FingerprintDone(i) => i < |w.tasks| && w.tasks[i].status == Suspended && w.tasks[i].task.stage == AwaitingFingerprint
    case VerifyDone(i) => i < |w.tasks| && w.tasks[i].status == Suspended && w.tasks[i].task.stage == AwaitingVerify
    case _ => true
  }

  /** What the router does with an event. */
  function React(crypto: Crypto, w: World, ev: Event): Outcome
    requires Enabled(w, ev)
  {
    match ev
    case Open(c, now) => Outcome(OnOpen(w.st, c, now), [], Ok)
    case Recv(c, frame, now, pairId, nonce) => Dispatch(w.st, c, frame, now, pairId, nonce)
    case Malformed(c, code) => RefuseFatally(w.st, c, code, WS_CLOSE_PROTOCOL_ERROR)
    case Closed(c) => OnConnClosed(w.st, c)
    case FingerprintDone(i) =>
      ResumeFingerprint(w.st, w.tasks[i].task, crypto.fingerprintOf(w.tasks[i].task.proof.spki))
    case VerifyDone(i) => ResumeVerify(w.st, w.tasks[i].task, SignatureOk(crypto, w.tasks[i].task))
    case RevokeDevice(d, now) => Outcome(w.st.(devices := Revoke(w.st.devices, d, now)), [], Ok)
  }

  function NextTasks(crypto: Crypto, w: World, ev: Event): seq<TaskRecord>
    requires Enabled(w, ev)
  {
    var o := React(crypto, w, ev);
    match ev
    case Recv(_, _, _, _, _) =>
      if o.result.Awaiting? then w.tasks + [TaskRecord(o.result.task, Suspended)] else w.tasks
    case FingerprintDone(i) =>
      w.tasks[i := if o.result.Awaiting? then TaskRecord(o.result.task, Suspended) else w.tasks[i].(status := Refused)]
    case VerifyDone(i) =>
      w.tasks[i := w.tasks[i].(status := if Admits(w.st, w.tasks[i].task, SignatureOk(crypto, w.tasks[i].task))
                                         then Succeeded else Refused)]
    case _ => w.tasks
  }

  function Step(crypto: Crypto, w: World, ev: Event): World
    requires Enabled(w, ev)
  {
    var o := React(crypto, w, ev);
    World(o.st, NextTasks(crypto, w, ev), if ev.Open? then w.used + {ev.c} else w.used, w.outbox + o.out)
  }

  function Start(s: Setup): World {
    World(Init(s.mode, s.devices), [], {}, [])
  }

  /** A run: the events and every world on the way, from the start on. */
  datatype Behavior = Behavior(setup: Setup, events: seq<Event>, worlds: seq<World>) {
    ghost predicate Valid() {
      && |worlds| == |events| + 1
      && worlds[0] == Start(setup)
      && (forall i :: 0 <= i < |events| ==> StepAt(i))
    }

    ghost predicate StepAt(i: nat)
      requires |worlds| == |events| + 1 && i < |events|
    {
      Enabled(worlds[i], events[i]) && worlds[i + 1] == Step(setup.crypto, worlds[i], events[i])
    }

    /** The frames sent by event `i`. */
    ghost function Sent(i: nat): seq<Delivery>
      requires Valid() && i < |events|
    {
      assert StepAt(i);
      React(setup.crypto, worlds[i], events[i]).out
    }
  }

  // ----- the invariant holds in every reachable state --------------------------------

  ghost predicate WorldInv(w: World) {
    && Inv(w.st)
    && w.st.conns.Keys <= w.used
    && (forall i :: 0 <= i < |w.tasks| ==> w.tasks[i].task.connId in w.used)
  }

  lemma ReactKeepsInv(crypto: Crypto, w: World, ev: Event)
    requires Inv(w.st) && w.st.conns.Keys <= w.used && Enabled(w, ev)
    ensures Inv(React(crypto, w, ev).st)
  {
    hide Dispatch, OnConnClosed, ResumeFingerprint, ResumeVerify, Inv;
    match ev
    case Open(c, now) => OpenKeepsInv(w.st, c, now);
    case Recv(c, frame, now, pairId, nonce) => DispatchKeepsInv(w.st, c, frame, now, pairId, nonce);
    case Malformed(c, code) =>
    case Closed(c) => ConnClosedKeepsInv(w.st, c);
    case FingerprintDone(i) =>
      ResumeKeepsInv(w.st, w.tasks[i].task, crypto.fingerprintOf(w.tasks[i].task.proof.spki), false);
    case VerifyDone(i) => ResumeKeepsInv(w.st, w.tasks[i].task, "", SignatureOk(crypto, w.tasks[i].task));
    case RevokeDevice(d, now) => RevokeKeepsInv(w.st, d, now);
  }

  lemma RevokeKeepsInv(st: State, d: Id, now: int)
    requires Inv(st)
    ensures Inv(st.(devices := Revoke(st.devices, d, now)))
  {
    TablesFrame(st, st.(devices := Revoke(st.devices, d, now)));
  }

  lemma ReactConns(crypto: Crypto, w: World, ev: Event)
    requires Enabled(w, ev)
    ensures React(crypto, w, ev).st.conns.Keys <= w.st.conns.Keys + (if ev.Open? then {ev.c} else {})
    ensures React(crypto, w, ev).st.mode == w.st.mode
  {
    hide Dispatch, OnConnClosed, ResumeFingerprint, ResumeVerify, SignatureOk;
    match ev
    case Recv(c, frame, now, pairId, nonce) => DispatchKeepsTrust(w.st, c, frame, now, pairId, nonce);
    case Closed(c) => ConnClosedTrust(w.st, c);
    case FingerprintDone(i) =>
      ResumeKeepsTables(w.st, w.tasks[i].task, crypto.fingerprintOf(w.tasks[i].task.proof.spki), false);
    case VerifyDone(i) => ResumeKeepsTables(w.st, w.tasks[i].task, "", SignatureOk(crypto, w.tasks[i].task));
    case _ =>
  }

  lemma SuspendedTask(st: State, c: Id, frame: Frame, now: int, pairId: Id, nonce: string)
    requires Dispatch(st, c, frame, now, pairId, nonce).result.Awaiting?
    ensures frame.body.AuthProof? && c in st.conns
    ensures Dispatch(st, c, frame, now, pairId, nonce) == OnAuthProof(st, c, frame)
  {
  }

  lemma ResumedTask(st: State, task: AuthTask, fingerprint: string)
    ensures var r := ResumeFingerprint(st, task, fingerprint).result; r.Awaiting? ==> r.task.connId == task.connId
  {
  }

  lemma StepKeepsWorldInv(crypto: Crypto, w: World, ev: Event)
    requires WorldInv(w) && Enabled(w, ev)
    ensures WorldInv(Step(crypto, w, ev))
  {
    hide Dispatch, Inv, OnConnClosed, ResumeFingerprint, ResumeVerify;
    ReactKeepsInv(crypto, w, ev);
    ReactConns(crypto, w, ev);
    if ev.FingerprintDone? {
      ResumedTask(w.st, w.tasks[ev.task].task, crypto.fingerprintOf(w.tasks[ev.task].task.proof.spki));
    }
    if ev.Recv? && Dispatch(w.st, ev.c, ev.frame, ev.now, ev.pairId, ev.nonce).result.Awaiting? {
      SuspendedTask(w.st, ev.c, ev.frame, ev.now, ev.pairId, ev.nonce);
    }
  }

  lemma {:induction false} ReachableInv(b: Behavior, n: nat)
    requires b.Valid() && n <= |b.events|
    ensures WorldInv(b.worlds[n]) && b.worlds[n].st.mode == b.setup.mode
  {
    hide Dispatch, OnConnClosed, React, Step;
    if n == 0 {
    } else {
      ReachableInv(b, n - 1);
      assert b.StepAt(n - 1);
      StepKeepsWorldInv(b.setup.crypto, b.worlds[n - 1], b.events[n - 1]);
      StepKeepsMode(b.setup.crypto, b.worlds[n - 1], b.events[n - 1]);
    }
  }

  lemma StepKeepsMode(crypto: Crypto, w: World, ev: Event)
    requires Enabled(w, ev)
    ensures Step(crypto, w, ev).st.mode == w.st.mode
  {
    hide React;
    ReactConns(crypto, w, ev);
  }

  /**
   * In every reachable state: no device is in two open sessions, and an open session's two connections are
   * live and bound to exactly the recorded roles and devices.
   */
  lemma ReachableSessions(b: Behavior, n: nat)
    requires b.Valid() && n <= |b.events|
    ensures var st := b.worlds[n].st;
            && (forall k | k in st.sessions.rows && st.sessions.rows[k].Open() ::
                  && st.BoundAs(st.sessions.rows[k].desktopConnId, Desktop, st.sessions.rows[k].desktopDeviceId)
                  && st.BoundAs(st.sessions.rows[k].phoneConnId, Phone, st.sessions.rows[k].phoneDeviceId))
            && (forall k, l | k in st.sessions.rows && l in st.sessions.rows && st.sessions.rows[k].Open()
                  && st.sessions.rows[l].Open() && k != l :: !Share(st.sessions.rows[k], st.sessions.rows[l]))
  {
    hide Step, React;
    ReachableInv(b, n);
    var st := b.worlds[n].st;
    forall k | k in st.sessions.rows && st.sessions.rows[k].Open()
      ensures st.BoundAs(st.sessions.rows[k].desktopConnId, Desktop, st.sessions.rows[k].desktopDeviceId)
      ensures st.BoundAs(st.sessions.rows[k].phoneConnId, Phone, st.sessions.rows[k].phoneDeviceId)
    {
      OpenSessionIsLive(st, k);
    }
  }

  /**
   * In every reachable state: an open pairing is presented by the live desktop connection of its device and by no
   * other open pairing, and a JOINED one is joined by a live phone connection.
   */
  lemma ReachablePairings(b: Behavior, n: nat)
    requires b.Valid() && n <= |b.events|
    ensures var st := b.worlds[n].st;
            && (forall k | k in st.pairings.rows && st.pairings.rows[k].Open() ::
                  st.BoundAs(st.pairings.rows[k].desktopConnId, Desktop, st.pairings.rows[k].desktopDeviceId))
            && (forall k | k in st.pairings.rows && st.pairings.rows[k].state == JOINED ::
                  st.pairings.rows[k].phoneConnId.Some? && st.HasRole(st.pairings.rows[k].phoneConnId.value, Phone))
            && (forall k, l | k in st.pairings.rows && l in st.pairings.rows && st.pairings.rows[k].Open()
                  && st.pairings.rows[l].Open() && k != l ::
                  st.pairings.rows[k].desktopConnId != st.pairings.rows[l].desktopConnId)
  {
    hide Step, React;
    ReachableInv(b, n);
    var st := b.worlds[n].st;
    forall k | k in st.pairings.rows
      ensures st.pairings.rows[k].Open() ==>
                st.BoundAs(st.pairings.rows[k].desktopConnId, Desktop, st.pairings.rows[k].desktopDeviceId)
      ensures st.pairings.rows[k].state == JOINED ==>
                st.pairings.rows[k].phoneConnId.Some? && st.HasRole(st.pairings.rows[k].phoneConnId.value, Phone)
    {
      assert PairingOk(st, k, st.pairings.rows[k]);
    }
  }

  /** In every reachable state a pending request comes from the live phone connection of the device its key names. */
  lemma ReachableRequests(b: Behavior, n: nat, d: Id, p: Id)
    requires b.Valid() && n <= |b.events| && RequestKey(d, p) in b.worlds[n].st.requests.rows
    ensures b.worlds[n].st.BoundAs(b.worlds[n].st.requests.rows[RequestKey(d, p)].phoneConnId, Phone, p)
  {
    hide Step, React, RequestKey;
    ReachableInv(b, n);
    RequestNamesPhone(b.worlds[n].st, d, p);
  }

  /** In every reachable state the device index is the exact inverse of the bound connections. */
  lemma ReachableIndex(b: Behavior, n: nat, d: Id, c: Id)
    requires b.Valid() && n <= |b.events|
    ensures var st := b.worlds[n].st;
            (d in st.byDevice && st.byDevice[d] == c) <==> (c in st.conns && st.conns[c].deviceId == Some(d))
  {
    hide Step, React;
    ReachableInv(b, n);
  }

  /** In required mode everything open was started from an authenticated connection. */
  lemma ReachableTrust(b: Behavior, n: nat)
    requires b.Valid() && n <= |b.events| && b.setup.mode == Required
    ensures var st := b.worlds[n].st;
            && (forall k :: k in st.requests.rows ==> st.requests.rows[k].phoneConnId in st.authenticated)
            && (forall k :: k in st.sessions.rows && st.sessions.rows[k].Open()
                  ==> st.sessions.rows[k].phoneConnId in st.authenticated)
            && (forall k :: k in st.pairings.rows && st.pairings.rows[k].Open()
                  ==> st.pairings.rows[k].desktopConnId in st.authenticated)
            && (forall k :: k in st.pairings.rows && st.pairings.rows[k].state == JOINED
                  ==> (st.pairings.rows[k].phoneConnId.Some? && st.pairings.rows[k].phoneConnId.value in st.authenticated))
  {
    hide Step, React;
    ReachableInv(b, n);
    var st := b.worlds[n].st;
    forall k | k in st.requests.rows ensures st.requests.rows[k].phoneConnId in st.authenticated {
      assert RequestOk(st, k, st.requests.rows[k]);
    }
    forall k | k in st.sessions.rows && st.sessions.rows[k].Open()
      ensures st.sessions.rows[k].phoneConnId in st.authenticated
    {
      assert SessionOk(st, k, st.sessions.rows[k]);
    }
    forall k | k in st.pairings.rows && st.pairings.rows[k].Open()
      ensures st.pairings.rows[k].desktopConnId in st.authenticated
      ensures st.pairings.rows[k].state == JOINED ==>
                st.pairings.rows[k].phoneConnId.Some? && st.pairings.rows[k].phoneConnId.value in st.authenticated
    {
      assert PairingOk(st, k, st.pairings.rows[k]);
    }
  }

  // ----- the pairing lifecycle over a run ------------------------------------------------

  /** Whether a pairing in state `a` can ever be in state `b` later. */
  predicate Reaches(a: PairingState, b: PairingState) {
    a == b || a == CREATED || (a == JOINED && b != CREATED)
  }

  lemma StepIsPairingStep(crypto: Crypto, w: World, ev: Event)
    requires Enabled(w, ev)
    ensures PairingsStep(w.st.pairings.rows, Step(crypto, w, ev).st.pairings.rows)
  {
    hide Dispatch, OnConnClosed, ResumeFingerprint, ResumeVerify, PairingsStep;
    SameIsPairingStep(w.st.pairings.rows);
    match ev
    case Recv(c, frame, now, pairId, nonce) => DispatchIsPairingStep(w.st, c, frame, now, pairId, nonce);
    case Closed(c) => ConnClosedIsPairingStep(w.st, c);
    case FingerprintDone(i) =>
      ResumeKeepsTables(w.st, w.tasks[i].task, crypto.fingerprintOf(w.tasks[i].task.proof.spki), false);
    case VerifyDone(i) => ResumeKeepsTables(w.st, w.tasks[i].task, "", SignatureOk(crypto, w.tasks[i].task));
    case _ =>
  }

  /**
   * Along every run pairing records never disappear, their state only moves forward, a terminal record never
   * changes again, and the presenting desktop, its key material and the expiry stay as created.
   */
  lemma {:induction false} PairingLifecycle(b: Behavior, i: nat, j: nat, k: Id)
    requires b.Valid() && i <= j <= |b.events|
    requires k in b.worlds[i].st.pairings.rows
    ensures k in b.worlds[j].st.pairings.rows
    ensures var p, q := b.worlds[i].st.pairings.rows[k], b.worlds[j].st.pairings.rows[k];
            && Reaches(p.state, q.state)
            && (!p.Open() ==> q == p)
            && q.DesktopIdentity() == p.DesktopIdentity() && q.desktopConnId == p.desktopConnId
            && q.createdAtMs == p.createdAtMs && q.expiresAtMs == p.expiresAtMs
    decreases j
  {
    hide Step, React;
    if i == j {
    } else {
      PairingLifecycle(b, i, j - 1, k);
      assert b.StepAt(j - 1);
      StepIsPairingStep(b.setup.crypto, b.worlds[j - 1], b.events[j - 1]);
    }
  }

  // ----- acceptances ------------------------------------------------------------------------

  predicate IsAcceptance(d: Delivery, k: Id) { d.frame.body.PairAccepted? && d.frame.body.pairId == k }

  /** Whether event `n` announces the acceptance of pairing `k` to anybody. */
  ghost predicate Announces(b: Behavior, n: nat, k: Id)
    requires b.Valid() && n < |b.events|
  {
    exists i :: 0 <= i < |b.Sent(n)| && IsAcceptance(b.Sent(n)[i], k)
  }

  /** An announced acceptance of `k` and the state of `k` around it. */
  ghost predicate AcceptStep(w: World, out: seq<Delivery>, w': World, c: Id, replyTo: Option<Id>, k: Id) {
    && k in w.st.pairings.rows && w.st.pairings.rows[k].state == JOINED && w.st.pairings.rows[k].HasPhone()
    && w.st.pairings.rows[k].desktopConnId == c && w.st.pairings.rows[k].pairId == k
    && out == AcceptedDeliveries(w.st.pairings.rows[k], replyTo)
    && k in w'.st.pairings.rows && w'.st.pairings.rows[k].state == CONSUMED
  }

  lemma DispatchAnnounces(st: State, c: Id, frame: Frame, now: int, pairId: Id, nonce: string, i: nat, k: Id)
    requires Inv(st)
    requires var out := Dispatch(st, c, frame, now, pairId, nonce).out; i < |out| && IsAcceptance(out[i], k)
    ensures frame.body == PairAccept(k) && st.Bound(c)
    ensures Dispatch(st, c, frame, now, pairId, nonce) == DecidePairing(Touch(st, c, now), c, frame, k, true)
    ensures k in st.pairings.rows && st.pairings.rows[k].state == JOINED && st.pairings.rows[k].desktopConnId == c
  {
    if !frame.body.PairAccept? && !frame.body.PairCreate? {
      hide Dispatch;
      DispatchNoReceipts(st, c, frame, now, pairId, nonce);
    } else if frame.body.PairAccept? && st.Bound(c) {
      hide DecidePairing;
      var st1, l := Touch(st, c, now), frame.body.pairId;
      TouchKeepsInv(st, c, now);
      AcceptOutcome(st1, c, frame, l);
      if l in st.pairings.rows {
        assert PairingOk(st, l, st.pairings.rows[l]);
      }
    }
  }

  lemma ReactAnnounces(crypto: Crypto, w: World, ev: Event, i: nat, k: Id)
    requires WorldInv(w) && Enabled(w, ev)
    requires i < |React(crypto, w, ev).out| && IsAcceptance(React(crypto, w, ev).out[i], k)
    ensures ev.Recv? && ev.frame.body == PairAccept(k)
    ensures AcceptStep(w, React(crypto, w, ev).out, Step(crypto, w, ev), ev.c, ev.frame.id, k)
  {
    hide Dispatch, OnConnClosed, ResumeFingerprint, ResumeVerify, DecidePairing, SignatureOk, NextTasks;
    match ev
    case Closed(c) => ConnClosedNoReceipts(w.st, c);
    case FingerprintDone(t) =>
      ResumeKeepsTables(w.st, w.tasks[t].task, crypto.fingerprintOf(w.tasks[t].task.proof.spki), false);
    case VerifyDone(t) => ResumeKeepsTables(w.st, w.tasks[t].task, "", SignatureOk(crypto, w.tasks[t].task));
    case Recv(c, frame, now, pairId, nonce) =>
      DispatchAnnounces(w.st, c, frame, now, pairId, nonce, i, k);
      TouchKeepsInv(w.st, c, now);
      AcceptOutcome(Touch(w.st, c, now), c, frame, k);
      assert PairingOk(w.st, k, w.st.pairings.rows[k]);
    case _ =>
  }

  lemma OnlyAcceptAnnounces(b: Behavior, n: nat, k: Id)
    requires b.Valid() && n < |b.events| && Announces(b, n, k)
    ensures b.events[n].Recv? && b.events[n].frame.body == PairAccept(k)
    ensures AcceptStep(b.worlds[n], b.Sent(n), b.worlds[n + 1], b.events[n].c, b.events[n].frame.id, k)
  {
    hide React, Step;
    ReachableInv(b, n);
    assert b.StepAt(n);
    var i :| 0 <= i < |b.Sent(n)| && IsAcceptance(b.Sent(n)[i], k);
    ReactAnnounces(b.setup.crypto, b.worlds[n], b.events[n], i, k);
  }

  /** No pairing id is ever accepted twice. */
  lemma AcceptedAtMostOnce(b: Behavior, m: nat, n: nat, k: Id)
    requires b.Valid() && m < |b.events| && n < |b.events|
    requires Announces(b, m, k) && Announces(b, n, k)
    ensures m == n
  {
    hide React, Step;
    OnlyAcceptAnnounces(b, m, k);
    OnlyAcceptAnnounces(b, n, k);
    if m < n {
      PairingLifecycle(b, m + 1, n, k);
    } else if n < m {
      PairingLifecycle(b, n + 1, m, k);
    }
  }

  // ----- where the key material comes from ----------------------------------------------------

  predicate CreatesPairing(w: World, ev: Event, out: seq<Delivery>, k: Id) {
    && ev.Recv? && ev.frame.body.PairCreate? && ev.pairId == k && w.st.Bound(ev.c)
    && |out| == 1 && out[0].frame.body.PairCreated?
  }

  predicate RecordsJoin(ev: Event, out: seq<Delivery>, k: Id) {
    ev.Recv? && ev.frame.body.PairJoin? && ev.frame.body.pairId == k && |out| == 1 && out[0].frame == ev.frame
  }

  /** The identity in the `pair.create` answered with `pair.created` for `k`, among the first `n` events. */
  ghost function Creator(b: Behavior, n: nat, k: Id): Option<Identity>
    requires b.Valid() && n <= |b.events|
  {
    if n == 0 then None
    else
      var w, ev := b.worlds[n - 1], b.events[n - 1];
      if CreatesPairing(w, ev, b.Sent(n - 1), k)
      then Some(Identity(w.st.conns[ev.c].deviceId.value, ev.frame.body.displayName, ev.frame.body.spki, ev.frame.body.fingerprint))
      else Creator(b, n - 1, k)
  }

  /** The sender and the identity of the latest `pair.join` for `k` passed on to the desktop, among the first `n` events. */
  ghost function LatestJoin(b: Behavior, n: nat, k: Id): Option<(Id, Identity)>
    requires b.Valid() && n <= |b.events|
  {
    if n == 0 then None
    else
      var ev := b.events[n - 1];
      if RecordsJoin(ev, b.Sent(n - 1), k)
      then Some((ev.c, Identity(ev.frame.body.deviceId, ev.frame.body.displayName, ev.frame.body.spki, ev.frame.body.fingerprint)))
      else LatestJoin(b, n - 1, k)
  }

  /** What the record of a pairing says about where its key material came from. */
  ghost predicate Sourced(p: Pairing, creator: Option<Identity>, join: Option<(Id, Identity)>) {
    && creator == Some(p.DesktopIdentity())
    && (p.HasPhone() ==> join == Some((p.phoneConnId.value, p.PhoneIdentity())))
  }

  /** How one event changes the record of pairing `k`: created, joined, or at most given a new state. */
  ghost predicate RecordChange(w: World, ev: Event, out: seq<Delivery>, w': World, k: Id)
    requires k in w'.st.pairings.rows
  {
    var q := w'.st.pairings.rows[k];
    if CreatesPairing(w, ev, out, k) then
      q == NewPairing(k, ev.c, w.st.conns[ev.c].deviceId.value, ev.frame.body, ev.now)
    else if RecordsJoin(ev, out, k) then
      k in w.st.pairings.rows && q == Joined(w.st.pairings.rows[k], ev.c, ev.frame.body)
    else
      k in w.st.pairings.rows && q == w.st.pairings.rows[k].(state := q.state)
  }

  lemma CreateChange(st: State, c: Id, frame: Frame, now: int, pairId: Id, k: Id)
    requires frame.body.PairCreate? && pairId !in st.pairings.rows
    requires k in OnPairCreate(st, c, frame, now, pairId).st.pairings.rows
    ensures var o := OnPairCreate(st, c, frame, now, pairId);
            var q := o.st.pairings.rows[k];
            if k == pairId
            then st.Bound(c) && |o.out| == 1 && o.out[0].frame.body.PairCreated?
                 && q == NewPairing(k, c, st.conns[c].deviceId.value, frame.body, now)
            else k in st.pairings.rows && q == st.pairings.rows[k].(state := q.state)
  {
    SupersedeIsStep(st.pairings, c);
  }

  lemma JoinChange(st: State, c: Id, frame: Frame, now: int, k: Id)
    requires Inv(st) && frame.body.PairJoin?
    requires k in OnPairJoin(st, c, frame, now).st.pairings.rows
    ensures var o := OnPairJoin(st, c, frame, now);
            var q := o.st.pairings.rows[k];
            && k in st.pairings.rows
            && if frame.body.pairId == k && |o.out| == 1 && o.out[0].frame == frame
               then q == Joined(st.pairings.rows[k], c, frame.body)
               else q == st.pairings.rows[k].(state := q.state)
  {
    hide JoinKnown, Joined;
    var l := frame.body.pairId;
    if l in st.pairings.rows {
      assert PairingOk(st, l, st.pairings.rows[l]);
      if k in JoinKnown(st, c, frame, now).st.pairings.rows {
        JoinKnownChange(st, c, frame, now, k);
      }
    }
  }

  lemma JoinKnownChange(st: State, c: Id, frame: Frame, now: int, k: Id)
    requires frame.body.PairJoin? && frame.body.pairId in st.pairings.rows
    requires k in JoinKnown(st, c, frame, now).st.pairings.rows
    requires var p := st.pairings.rows[frame.body.pairId]; p.Open() ==> p.desktopConnId in st.handles
    ensures var o := JoinKnown(st, c, frame, now);
            var q := o.st.pairings.rows[k];
            && k in st.pairings.rows
            && if frame.body.pairId == k && |o.out| == 1 && o.out[0].frame == frame
               then q == Joined(st.pairings.rows[k], c, frame.body)
               else q == st.pairings.rows[k].(state := q.state)
  {
    hide Joined;
  }

  lemma DecideChange(st: State, c: Id, frame: Frame, l: Id, accept: bool, k: Id)
    requires k in DecidePairing(st, c, frame, l, accept).st.pairings.rows
    ensures k in st.pairings.rows
    ensures DecidePairing(st, c, frame, l, accept).st.pairings.rows[k]
            == st.pairings.rows[k].(state := DecidePairing(st, c, frame, l, accept).st.pairings.rows[k].state)
  {
  }

  lemma BoundChange(w: World, st1: State, ev: Event, k: Id)
    requires Inv(st1) && ev.Recv? && ev.pairId !in st1.pairings.rows
    requires st1.pairings == w.st.pairings && st1 == Touch(w.st, ev.c, ev.now) && w.st.Bound(ev.c)
    requires k in DispatchBound(st1, ev.c, ev.frame, ev.now, ev.pairId).st.pairings.rows
    ensures var o := DispatchBound(st1, ev.c, ev.frame, ev.now, ev.pairId);
            RecordChange(w, ev, o.out, w.(st := o.st), k)
  {
    hide OnPairCreate, OnPairJoin, DecidePairing, OnSessionRequest, OnSessionAccepted, OnSessionRejected, OnSessionClose, RelaySignal;
    hide Inv, NewPairing, Joined;
    var frame := ev.frame;
    if frame.body.PairCreate? {
      CreateChange(st1, ev.c, frame, ev.now, ev.pairId, k);
    } else if frame.body.PairJoin? {
      JoinChange(st1, ev.c, frame, ev.now, k);
    } else if frame.body.PairAccept? {
      DecideChange(st1, ev.c, frame, frame.body.pairId, true, k);
    } else if frame.body.PairReject? {
      DecideChange(st1, ev.c, frame, frame.body.pairId, false, k);
    } else if SessionBody(frame.body) {
      SessionFrameKeepsPairings(st1, ev.c, frame, ev.now, ev.pairId);
    } else {
      OtherFramesChangeNothing(st1, ev.c, frame, ev.now, ev.pairId);
    }
  }

  lemma DispatchChange(w: World, ev: Event, k: Id)
    requires WorldInv(w) && Enabled(w, ev) && ev.Recv?
    requires k in Dispatch(w.st, ev.c, ev.frame, ev.now, ev.pairId, ev.nonce).st.pairings.rows
    ensures var o := Dispatch(w.st, ev.c, ev.frame, ev.now, ev.pairId, ev.nonce);
            RecordChange(w, ev, o.out, w.(st := o.st), k)
  {
    if ev.c in w.st.conns && !ev.frame.body.Hello? && !ev.frame.body.AuthProof? && w.st.Bound(ev.c) {
      hide DispatchBound, Inv;
      TouchKeepsInv(w.st, ev.c, ev.now);
      BoundChange(w, Touch(w.st, ev.c, ev.now), ev, k);
    }
  }

  lemma ReactChange(crypto: Crypto, w: World, ev: Event, k: Id)
    requires WorldInv(w) && Enabled(w, ev)
    requires k in Step(crypto, w, ev).st.pairings.rows
    ensures RecordChange(w, ev, React(crypto, w, ev).out, Step(crypto, w, ev), k)
  {
    hide Dispatch, OnConnClosed, ResumeFingerprint, ResumeVerify;
    match ev
    case Recv(_, _, _, _, _) => DispatchChange(w, ev, k);
    case Closed(c) => ConnClosedOnlyCancels(w.st, c, k);
    case FingerprintDone(i) =>
      ResumeKeepsTables(w.st, w.tasks[i].task, crypto.fingerprintOf(w.tasks[i].task.proof.spki), false);
    case VerifyDone(i) => ResumeKeepsTables(w.st, w.tasks[i].task, "", SignatureOk(crypto, w.tasks[i].task));
    case _ =>
  }

  lemma {:induction false} RecordsAreSourced(b: Behavior, n: nat, k: Id)
    requires b.Valid() && n <= |b.events| && k in b.worlds[n].st.pairings.rows
    ensures Sourced(b.worlds[n].st.pairings.rows[k], Creator(b, n, k), LatestJoin(b, n, k))
  {
    hide React, Step;
    if n == 0 {
    } else {
      ReachableInv(b, n - 1);
      assert b.StepAt(n - 1);
      ReactChange(b.setup.crypto, b.worlds[n - 1], b.events[n - 1], k);
      if k in b.worlds[n - 1].st.pairings.rows {
        RecordsAreSourced(b, n - 1, k);
      }
    }
  }

  /**
   * An announced acceptance sends exactly two frames, to the presenting desktop connection and to the phone
   * connection of the latest recorded join, and both carry exactly the identity of the creating `pair.create`
   * and the identity of that join.
   */
  lemma AcceptanceCarriesTheKeys(b: Behavior, n: nat, k: Id)
    requires b.Valid() && n < |b.events| && Announces(b, n, k)
    ensures b.events[n].Recv?
    ensures var creator, join := Creator(b, n, k), LatestJoin(b, n, k);
            && creator.Some? && join.Some?
            && var body := PairAccepted(k, creator.value, join.value.1);
               b.Sent(n) == [Delivery(b.events[n].c, Reply(b.events[n].frame.id, body)), Delivery(join.value.0, Plain(body))]
  {
    hide React, Step;
    OnlyAcceptAnnounces(b, n, k);
    RecordsAreSourced(b, n, k);
  }
}
