/**
 * Who is told when something ends: a desktop that turns its requests down, a
 * participant that closes a session, and a socket that closes. Everybody
 * concerned gets exactly one notice, and nobody else gets any.
 */
module RouterNotices {
  import opened Basics
  import opened OrderedMap
  import opened SignalingTypes
  import opened RouterSpec
  import opened RouterInvariant
  import opened RouterSteps
  import opened RouterOutcomes

  // ----- a desktop turns its requests down ----------------------------------------------

  /** The pending request `key` asks for the device `d`. */
  predicate AsksFor(st: State, key: string, d: Id) {
    key in st.requests.rows && st.requests.rows[key].frame.body.SessionRequest? && st.requests.rows[key].frame.body.desktopDeviceId == d
  }

  /** Each of the given requests is answered once, at its own phone. */
  lemma {:induction false} ForwardedExactly(keys: seq<string>, st: State, frame: Frame)
    requires NoRepeats(keys)
    requires forall i :: 0 <= i < |keys| ==> keys[i] in st.requests.rows && st.requests.rows[keys[i]].phoneConnId in st.handles
    requires forall i, j :: 0 <= i < j < |keys| ==> st.requests.rows[keys[i]].phoneConnId != st.requests.rows[keys[j]].phoneConnId
    ensures var out := ForwardToPhones(keys, st.requests.rows, st.handles, frame);
      && |out| == |keys|
      && forall i :: 0 <= i < |keys| ==> out[i] == Delivery(st.requests.rows[keys[i]].phoneConnId, frame)
    decreases |keys|
  {
    if keys == [] {
    } else {
      ForwardedExactly(keys[..|keys| - 1], st, frame);
    }
  }

  /** Two requests for one desktop come from two connections. */
  lemma RequestersDiffer(st: State, k: string, l: string, d: Id)
    requires Inv(st) && AsksFor(st, k, d) && AsksFor(st, l, d) && k != l
    ensures st.requests.rows[k].phoneConnId != st.requests.rows[l].phoneConnId
  {
    hide RequestKey;
    assert RequestOk(st, k, st.requests.rows[k]) && RequestOk(st, l, st.requests.rows[l]);
  }

  /** The pending requests for a device, in order: each is live, and no two come from one connection. */
  lemma AskersFacts(st: State, d: Id)
    requires Inv(st)
    ensures var keys, rows := Select(st.requests.order, RequestsFor(st.requests, d)), st.requests.rows;
      && NoRepeats(keys)
      && (forall k :: k in keys <==> AsksFor(st, k, d))
      && (forall i :: 0 <= i < |keys| ==> keys[i] in rows && rows[keys[i]].phoneConnId in st.handles)
      && (forall i, j :: 0 <= i < j < |keys| ==> rows[keys[i]].phoneConnId != rows[keys[j]].phoneConnId)
  {
    hide PairingOk, SessionOk, IndexInverse, RequestKey;
    var keys := Select(st.requests.order, RequestsFor(st.requests, d));
    SelectFacts(st.requests.order, RequestsFor(st.requests, d));
    forall i, j | 0 <= i < j < |keys|
      ensures st.requests.rows[keys[i]].phoneConnId != st.requests.rows[keys[j]].phoneConnId
    {
      assert keys[i] in keys && keys[j] in keys;
      RequestersDiffer(st, keys[i], keys[j], d);
    }
    forall i | 0 <= i < |keys| ensures keys[i] in st.requests.rows && st.requests.rows[keys[i]].phoneConnId in st.handles {
      assert keys[i] in keys;
      assert RequestOk(st, keys[i], st.requests.rows[keys[i]]);
    }
  }

  /** x brings the frame to the phone connection of some request for the device. */
  ghost predicate TellsAsker(st: State, d: Id, frame: Frame, x: Delivery) {
    x.frame == frame && exists k :: AsksFor(st, k, d) && x.to == st.requests.rows[k].phoneConnId
  }

  /**
   * After a desktop's `session.rejected` no pending request asks for its device; the connection of every request that
   * did gets the frame exactly once; requests for other desktops are unchanged and nobody else is told.
   */
  lemma TurnedDown(st: State, c: Id, frame: Frame)
    requires Inv(st) && st.HasRole(c, Desktop)
    ensures var o, d := OnSessionRejected(st, c, frame), st.conns[c].deviceId.value;
      && o.result == Ok && o.st == st.(requests := o.st.requests)
      && (forall k :: k in o.st.requests.rows <==> k in st.requests.rows && !AsksFor(st, k, d))
      && (forall k :: k in o.st.requests.rows ==> o.st.requests.rows[k] == st.requests.rows[k])
      && NoRepeats(o.out)
      && (forall x :: x in o.out <==> TellsAsker(st, d, frame, x))
  {
    hide Inv;
    var d := st.conns[c].deviceId.value;
    var keys := Select(st.requests.order, RequestsFor(st.requests, d));
    var out := OnSessionRejected(st, c, frame).out;
    AskersFacts(st, d);
    ForwardedExactly(keys, st, frame);
    forall x | TellsAsker(st, d, frame, x) ensures x in out {
      var k :| AsksFor(st, k, d) && x.to == st.requests.rows[k].phoneConnId;
      var i :| 0 <= i < |keys| && keys[i] == k;
      assert out[i] == x;
    }
    forall x | x in out ensures TellsAsker(st, d, frame, x) {
      var i :| 0 <= i < |out| && out[i] == x;
      assert AsksFor(st, keys[i], d);
    }
  }

  /** Anyone who is not a bound desktop is expelled for it, and nothing changes. */
  lemma OnlyDesktopsTurnDown(st: State, c: Id, frame: Frame)
    requires !st.HasRole(c, Desktop)
    ensures Expelled(OnSessionRejected(st, c, frame)) && OnSessionRejected(st, c, frame).st == st
  {
  }

  /** After that no acceptance for any phone opens a session: it is told that there is no such request. */
  lemma TurnedDownCannotBeAccepted(st: State, c: Id, frame: Frame, accepted: Frame, now: int)
    requires Inv(st) && st.HasRole(c, Desktop) && accepted.body.SessionAccepted?
    ensures var st' := OnSessionRejected(st, c, frame).st;
      var o := OnSessionAccepted(st', c, accepted, now);
      Told(o, c, accepted, SESSION_NOT_FOUND) && o.st == st'
  {
    hide PairingOk, SessionOk, IndexInverse, OpenSessionsUsing;
    var d := st.conns[c].deviceId.value;
    TurnedDown(st, c, frame);
    var key := RequestKey(d, accepted.body.phoneDeviceId);
    if key in st.requests.rows {
      var r := st.requests.rows[key];
      assert RequestOk(st, key, r);
      RequestKeyInjective(d, accepted.body.phoneDeviceId, r.frame.body.desktopDeviceId, st.conns[r.phoneConnId].deviceId.value);
      assert AsksFor(st, key, d);
    }
  }

  // ----- a participant closes a session ---------------------------------------------------

  /**
   * A `session.close` goes through exactly for a participant of a session on record. The session is then CLOSED and
   * no other changes; the other participant of an open one is live and gets the frame, exactly once and alone.
   */
  lemma SessionCloseOutcome(st: State, c: Id, frame: Frame)
    requires Inv(st) && frame.body.SessionClose? && st.Bound(c)
    ensures var o, k := OnSessionClose(st, c, frame), frame.body.sessionId;
      && o.st == st.(sessions := o.st.sessions)
      && if k in st.sessions.rows && st.sessions.rows[k].Mentions(c) then
           && o.result == Ok
           && k in o.st.sessions.rows && o.st.sessions.rows[k] == st.sessions.rows[k].(state := CLOSED)
           && OnlyChanges(st.sessions.rows, o.st.sessions.rows, k)
           && (forall x :: x in o.out ==> x.frame == frame)
           && (st.sessions.rows[k].Open() ==>
                 |o.out| == 1 && OtherEnd(st.sessions.rows[k], c, o.out[0].to) && o.out[0].to in st.conns && o.out[0].to != c)
         else
           && o.st == st && (Told(o, c, frame, SESSION_NOT_FOUND) <==> k !in st.sessions.rows)
           && (Expelled(o) <==> k in st.sessions.rows)
  {
    hide PairingOk, RequestOk, IndexInverse;
    var k := frame.body.sessionId;
    if k in st.sessions.rows {
      assert SessionOk(st, k, st.sessions.rows[k]);
    }
  }

  // ----- what a close does to pairings -------------------------------------------------------

  /** A close cancels exactly the open pairings that mention the connection, and leaves every other record as it is. */
  lemma CloseCancelsExactly(st: State, c: Id)
    ensures var rows, rows' := st.pairings.rows, OnConnClosed(st, c).st.pairings.rows;
      && rows'.Keys == rows.Keys
      && forall k :: k in rows ==>
           rows'[k] == if c in st.conns && rows[k].Open() && rows[k].Mentions(c) then rows[k].(state := CANCELLED) else rows[k]
  {
    hide PairingNotices, SessionNotices, CloseSessions, Select, Excluding;
  }

  // ----- a socket closes ---------------------------------------------------------------------

  /** The phone that joined a pairing presented by c is told that the pairing is over. */
  predicate PhoneNotice(st: State, c: Id, k: Id, x: Delivery) {
    && k in st.pairings.rows && st.pairings.rows[k].Open() && st.pairings.rows[k].desktopConnId == c
    && st.pairings.rows[k].phoneConnId == Some(x.to) && x.frame == Plain(PairRejected(k, PAIR_EXPIRED))
  }

  /** The other participant of an open session of c is told that its peer left. */
  predicate PeerNotice(st: State, c: Id, k: Id, x: Delivery) {
    && k in st.sessions.rows && st.sessions.rows[k].Open() && OtherEnd(st.sessions.rows[k], c, x.to)
    && x.frame == Plain(SessionClose(k, "peer-left"))
  }

  lemma {:induction false} PairingNoticesExactly(keys: seq<Id>, st: State, handles: set<Id>, c: Id)
    requires Inv(st) && handles == st.handles - {c} && NoRepeats(keys)
    requires forall k :: k in keys ==> k in st.pairings.rows && st.pairings.rows[k].Open() && st.pairings.rows[k].Mentions(c)
    ensures var out := PairingNotices(keys, st.pairings.rows, handles, c);
      && NoRepeats(out)
      && forall x :: x in out <==> exists k :: k in keys && PhoneNotice(st, c, k, x)
    decreases |keys|
  {
    hide Inv, PhoneNotice;
    if keys == [] {
    } else {
      var n := |keys| - 1;
      var k := keys[n];
      PrefixNoRepeats(keys);
      assert keys == keys[..n] + [k];
      PairingNoticesExactly(keys[..n], st, handles, c);
      var before, one := PairingNotices(keys[..n], st.pairings.rows, handles, c), PairingNotice(st.pairings.rows[k], handles, c);
      OnePairingNotice(st, k, handles, c);
      forall x | x in before ensures x !in one {
        var l :| l in keys[..n] && PhoneNotice(st, c, l, x);
        NoticesNameThePairing(st, c, k, l, x);
      }
      JoinedNoRepeats(before, one);
    }
  }

  lemma OnePairingNotice(st: State, k: Id, handles: set<Id>, c: Id)
    requires Inv(st) && handles == st.handles - {c}
    requires k in st.pairings.rows && st.pairings.rows[k].Open() && st.pairings.rows[k].Mentions(c)
    ensures var one := PairingNotice(st.pairings.rows[k], handles, c);
      |one| <= 1 && forall x :: x in one <==> PhoneNotice(st, c, k, x)
  {
    hide RequestOk, SessionOk, IndexInverse;
    assert PairingOk(st, k, st.pairings.rows[k]);
  }

  lemma NoticesNameThePairing(st: State, c: Id, k: Id, l: Id, x: Delivery)
    requires PhoneNotice(st, c, l, x) && k != l
    ensures !PhoneNotice(st, c, k, x)
  {
  }

  lemma {:induction false} SessionNoticesExactly(keys: seq<Id>, st: State, handles: set<Id>, c: Id)
    requires Inv(st) && handles == st.handles - {c} && NoRepeats(keys)
    requires forall k :: k in keys ==> k in st.sessions.rows && st.sessions.rows[k].Open() && st.sessions.rows[k].Mentions(c)
    ensures var out := SessionNotices(keys, st.sessions.rows, handles, c);
      && NoRepeats(out)
      && forall x :: x in out <==> exists k :: k in keys && PeerNotice(st, c, k, x)
    decreases |keys|
  {
    hide Inv, PeerNotice;
    if keys == [] {
    } else {
      var n := |keys| - 1;
      var k := keys[n];
      PrefixNoRepeats(keys);
      assert keys == keys[..n] + [k];
      SessionNoticesExactly(keys[..n], st, handles, c);
      var before, one := SessionNotices(keys[..n], st.sessions.rows, handles, c), SessionNotice(st.sessions.rows[k], handles, c);
      OneSessionNotice(st, k, handles, c);
      forall x | x in before ensures x !in one {
        var l :| l in keys[..n] && PeerNotice(st, c, l, x);
        NoticesNameTheSession(st, c, k, l, x);
      }
      JoinedNoRepeats(before, one);
    }
  }

  lemma OneSessionNotice(st: State, k: Id, handles: set<Id>, c: Id)
    requires Inv(st) && handles == st.handles - {c}
    requires k in st.sessions.rows && st.sessions.rows[k].Open() && st.sessions.rows[k].Mentions(c)
    ensures var one := SessionNotice(st.sessions.rows[k], handles, c);
      |one| <= 1 && forall x :: x in one <==> PeerNotice(st, c, k, x)
  {
    hide RequestOk, PairingOk, IndexInverse;
    assert SessionOk(st, k, st.sessions.rows[k]);
  }

  lemma NoticesNameTheSession(st: State, c: Id, k: Id, l: Id, x: Delivery)
    requires PeerNotice(st, c, l, x) && k != l
    ensures !PeerNotice(st, c, k, x)
  {
  }

  /**
   * When a socket closes, the phone of every open pairing it presented and the other participant of every open session
   * it was in get exactly one notice each, and nobody else gets anything.
   */
  lemma CloseTellsExactly(st: State, c: Id)
    requires Inv(st) && c in st.conns
    ensures var out := OnConnClosed(st, c).out;
      && NoRepeats(out)
      && forall x :: x in out <==> exists k :: PhoneNotice(st, c, k, x) || PeerNotice(st, c, k, x)
  {
    hide Inv, PairingNotices, SessionNotices, CancelPairings, CloseSessions, Unregister, PhoneNotice, PeerNotice;
    var ps, ss := OpenPairingsOf(st.pairings, c), OpenSessionsOf(st.sessions, c);
    var pk, sk := Select(st.pairings.order, ps), Select(st.sessions.order, ss);
    assert st.pairings.Valid() && st.sessions.Valid() by { ValidTables(st); }
    SelectFacts(st.pairings.order, ps);
    SelectFacts(st.sessions.order, ss);
    PairingNoticesExactly(pk, st, st.handles - {c}, c);
    SessionNoticesExactly(sk, st, st.handles - {c}, c);
    var a := PairingNotices(pk, st.pairings.rows, st.handles - {c}, c);
    var b := SessionNotices(sk, st.sessions.rows, st.handles - {c}, c);
    assert OnConnClosed(st, c).out == a + b by { CloseOutput(st, c); }
    forall k, x: Delivery | PhoneNotice(st, c, k, x) ensures k in pk && x.frame.body.PairRejected? { NoticeOfPairing(st, c, k, x); }
    forall k, x: Delivery | PeerNotice(st, c, k, x) ensures k in sk && x.frame.body.SessionClose? { NoticeOfSession(st, c, k, x); }
    forall x | x in a ensures x !in b {
      var k :| k in pk && PhoneNotice(st, c, k, x);
    }
    JoinedNoRepeats(a, b);
  }

  lemma ValidTables(st: State)
    requires Inv(st)
    ensures st.pairings.Valid() && st.sessions.Valid()
  {
  }

  lemma CloseOutput(st: State, c: Id)
    requires c in st.conns
    ensures OnConnClosed(st, c).out ==
      PairingNotices(Select(st.pairings.order, OpenPairingsOf(st.pairings, c)), st.pairings.rows, st.handles - {c}, c)
      + SessionNotices(Select(st.sessions.order, OpenSessionsOf(st.sessions, c)), st.sessions.rows, st.handles - {c}, c)
  {
    hide PairingNotices, SessionNotices, Select;
  }

  lemma NoticeOfPairing(st: State, c: Id, k: Id, x: Delivery)
    requires PhoneNotice(st, c, k, x)
    ensures k in OpenPairingsOf(st.pairings, c) && x.frame.body.PairRejected?
  {
  }

  lemma NoticeOfSession(st: State, c: Id, k: Id, x: Delivery)
    requires PeerNotice(st, c, k, x)
    ensures k in OpenSessionsOf(st.sessions, c) && x.frame.body.SessionClose?
  {
  }
}
