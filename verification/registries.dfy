/** The mutable tables of the signaling service, as the classes that own them. */
module Registries {
  import opened Basics
  import opened OrderedMap
  import opened SignalingTypes
  import Spec = RouterSpec

  class ConnectionRegistry {
    var conns: map<Id, Conn>
    var byDevice: map<Id, Id>

    constructor ()
      ensures conns == map[] && byDevice == map[]
    {
      conns, byDevice := map[], map[];
    }

    method Register(connId: Id, nowMs: int)
      modifies this
      ensures conns == old(conns)[connId := Conn(None, None, nowMs)]
      ensures byDevice == old(byDevice)
    {
      conns := conns[connId := Conn(None, None, nowMs)];
    }

    /** Bind the hello identity; a device with another live binding is refused. */
    method Bind(connId: Id, role: Role, deviceId: Id) returns (bound: bool)
      modifies this
      ensures bound <==>
              (connId in old(conns)
               && !(deviceId in old(byDevice) && old(byDevice)[deviceId] != connId && old(byDevice)[deviceId] in old(conns)))
      ensures bound ==> conns == old(conns)[connId := Conn(Some(role), Some(deviceId), old(conns)[connId].lastSeenMs)]
      ensures bound ==> byDevice == old(byDevice)[deviceId := connId]
      ensures !bound ==> conns == old(conns) && byDevice == old(byDevice)
    {
      if deviceId in byDevice && byDevice[deviceId] != connId && byDevice[deviceId] in conns {
        return false;
      }
      if connId !in conns {
        return false;
      }
      conns := conns[connId := conns[connId].(role := Some(role), deviceId := Some(deviceId))];
      byDevice := byDevice[deviceId := connId];
      bound := true;
    }

    method Touch(connId: Id, nowMs: int)
      modifies this`conns
      ensures conns == if connId in old(conns) then old(conns)[connId := old(conns)[connId].(lastSeenMs := nowMs)] else old(conns)
    {
      if connId in conns {
        conns := conns[connId := conns[connId].(lastSeenMs := nowMs)];
      }
    }

    /** Forget a connection and its device; only a binding that is still its own is dropped from the index. */
    method Unregister(connId: Id) returns (conn: Option<Conn>)
      modifies this
      ensures conn == if connId in old(conns) then Some(old(conns)[connId]) else None
      ensures conns == old(conns) - {connId}
      ensures byDevice == if conn.Some? && conn.value.deviceId.Some? && conn.value.deviceId.value in old(byDevice)
                             && old(byDevice)[conn.value.deviceId.value] == connId
                          then old(byDevice) - {conn.value.deviceId.value} else old(byDevice)
    {
      if connId !in conns {
        return None;
      }
      conn := Some(conns[connId]);
      conns := conns - {connId};
      if conn.value.deviceId.Some? && conn.value.deviceId.value in byDevice && byDevice[conn.value.deviceId.value] == connId {
        byDevice := byDevice - {conn.value.deviceId.value};
      }
    }
  }

  function OpenPairings(m: OMap<Id, Pairing>): set<Id> { set k | k in m.rows && m.rows[k].Open() }

  class MemoryPairingRepo {
    var pairings: OMap<Id, Pairing>

    constructor ()
      ensures pairings == Empty()
    {
      pairings := Empty();
    }

    /** `create` and `update` both store a record under its own id. */
    method Store(record: Pairing)
      modifies this
      ensures pairings == old(pairings).Put(record.pairId, record)
    {
      pairings := pairings.Put(record.pairId, record);
    }

    /** The first open pairing, in insertion order, that the desktop connection presents. */
    method FindOpenByDesktopConn(connId: Id) returns (found: Option<Pairing>)
      requires pairings.Valid()
      ensures var key := First(pairings.order, Spec.OpenPairingsPresentedBy(pairings, connId));
              found == if key.Some? then Some(pairings.rows[key.value]) else None
    {
      ghost var mine := Spec.OpenPairingsPresentedBy(pairings, connId);
      for i := 0 to |pairings.order|
        invariant First(pairings.order, mine) == First(pairings.order[i..], mine)
      {
        assert pairings.order[i..][1..] == pairings.order[i + 1..];
        var p := pairings.rows[pairings.order[i]];
        if p.desktopConnId == connId && p.Open() {
          return Some(p);
        }
      }
      found := None;
    }

    /** The ids of the pairings not yet terminal, in insertion order. */
    method ListOpen() returns (out: seq<Id>)
      requires pairings.Valid()
      ensures out == Select(pairings.order, OpenPairings(pairings))
    {
      out := [];
      for i := 0 to |pairings.order|
        invariant out == Select(pairings.order[..i], OpenPairings(pairings))
      {
        assert pairings.order[..i + 1][..i] == pairings.order[..i];
        var p := pairings.rows[pairings.order[i]];
        if p.state != CONSUMED && p.state != EXPIRED && p.state != REJECTED && p.state != CANCELLED {
          out := out + [pairings.order[i]];
        }
      }
      assert pairings.order[..|pairings.order|] == pairings.order;
    }
  }

  function OpenSessions(m: OMap<Id, Session>): set<Id> { set k | k in m.rows && m.rows[k].Open() }

  class MemorySessionRepo {
    var sessions: OMap<Id, Session>

    constructor ()
      ensures sessions == Empty()
    {
      sessions := Empty();
    }

    method Store(record: Session)
      modifies this
      ensures sessions == old(sessions).Put(record.sessionId, record)
    {
      sessions := sessions.Put(record.sessionId, record);
    }

    /** The first session, in insertion order, that uses the device and is not closed. */
    method FindOpenByDevice(deviceId: Id) returns (found: Option<Session>)
      requires sessions.Valid()
      ensures var key := First(sessions.order, Spec.OpenSessionsUsing(sessions, deviceId));
              found == if key.Some? then Some(sessions.rows[key.value]) else None
      ensures found.Some? <==> Spec.OpenSessionsUsing(sessions, deviceId) != {}
    {
      ghost var mine := Spec.OpenSessionsUsing(sessions, deviceId);
      for i := 0 to |sessions.order|
        invariant First(sessions.order, mine) == First(sessions.order[i..], mine)
      {
        assert sessions.order[i..][1..] == sessions.order[i + 1..];
        var s := sessions.rows[sessions.order[i]];
        if (s.desktopDeviceId == deviceId || s.phoneDeviceId == deviceId) && s.state != CLOSED {
          assert sessions.order[i] in mine;
          return Some(s);
        }
      }
      assert forall k :: k in mine ==> k in sessions.order;
      found := None;
    }

    method ListOpen() returns (out: seq<Id>)
      requires sessions.Valid()
      ensures out == Select(sessions.order, OpenSessions(sessions))
    {
      out := [];
      for i := 0 to |sessions.order|
        invariant out == Select(sessions.order[..i], OpenSessions(sessions))
      {
        assert sessions.order[..i + 1][..i] == sessions.order[..i];
        if sessions.rows[sessions.order[i]].state != CLOSED {
          out := out + [sessions.order[i]];
        }
      }
      assert sessions.order[..|sessions.order|] == sessions.order;
    }
  }

  /** The verdict on an enrolment; None means the caller inserts. */
  function CompareEnroll(existing: Option<Device>, spki: Key, fingerprint: Key): Option<EnrollResult> {
    if existing.None? then None
    else if existing.value.spki == spki && existing.value.fingerprint == fingerprint then Some(Known)
    else Some(Conflict)
  }

  class MemoryDeviceRegistry {
    var devices: map<Id, Device>

    constructor (initial: map<Id, Device>)
      ensures devices == initial
    {
      devices := initial;
    }

    /** Insert-only: an existing key is never replaced. */
    method Enroll(deviceId: Id, proof: Proof) returns (r: EnrollResult)
      modifies this
      ensures (r, devices) == Spec.Enroll(old(devices), deviceId, proof)
      ensures r != Enrolled ==> devices == old(devices)
    {
      var existing := if deviceId in devices then Some(devices[deviceId]) else None;
      var verdict := CompareEnroll(existing, proof.spki, proof.fingerprint);
      if verdict.Some? {
        return verdict.value;
      }
      devices := devices[deviceId := Device(proof.spki, proof.fingerprint, proof.displayName, None)];
      r := Enrolled;
    }

    method Revoke(deviceId: Id, nowMs: int) returns (done: bool)
      modifies this
      ensures devices == Spec.Revoke(old(devices), deviceId, nowMs)
      ensures done <==> deviceId in old(devices) && old(devices)[deviceId].revokedAtMs.None?
    {
      if deviceId !in devices || devices[deviceId].revokedAtMs.Some? {
        return false;
      }
      devices := devices[deviceId := devices[deviceId].(revokedAtMs := Some(nowMs))];
      done := true;
    }
  }
}
