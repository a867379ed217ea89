/** The life of session records over whole runs. */
module RouterSessions {
  import opened Basics
  import opened OrderedMap
  import opened SignalingTypes
  import opened RouterSpec
  import opened RouterInvariant
  import opened RouterSteps
  import opened RouterRuns

  /** A frame that the router dispatches to a handler: its sender is live and bound. */
  predicate Handled(w: World, ev: Event) { ev.Recv? && w.st.Bound(ev.c) }

  /** A participant closes the open session k, or the socket of a participant closes. */
  predicate Ends(w: World, ev: Event, k: Id)
    requires k in w.st.sessions.rows
  {
    var s := w.st.sessions.rows[k];
    && s.Open()
    && (|| (Handled(w, ev) && ev.frame.body.SessionClose? && ev.frame.body.sessionId == k && s.Mentions(ev.c))
        || (ev.Closed? && ev.c in w.st.conns && s.Mentions(ev.c)))
  }

  /** A desktop's acceptance names the id k. */
  predicate Overwrites(w: World, ev: Event, k: Id) {
    && Handled(w, ev) && ev.frame.body.SessionAccepted? && ev.frame.body.sessionId == k
    && AcceptGuard(w.st, ev.c, ev.frame.body)
  }

  /** What one event makes of the record of session k. */
  function NextRecord(w: World, ev: Event, k: Id): Session
    requires k in w.st.sessions.rows
  {
    if Overwrites(w, ev, k) then AcceptedSession(w.st, ev.c, ev.frame.body, ev.now)
    else if Ends(w, ev, k) then w.st.sessions.rows[k].(state := CLOSED)
    else w.st.sessions.rows[k]
  }

  /** The last-seen time of a connection plays no part in accepting a session. */
  lemma TouchAccepts(st: State, c: Id, now: int, b: Body)
    requires b.SessionAccepted?
    ensures AcceptGuard(Touch(st, c, now), c, b) <==> AcceptGuard(st, c, b)
    ensures AcceptGuard(st, c, b) ==> AcceptedSession(Touch(st, c, now), c, b, now) == AcceptedSession(st, c, b, now)
  {
    hide RequestKey, OpenSessionsUsing;
  }

  lemma PairFrameKeepsSessions(st: State, c: Id, frame: Frame, now: int, pairId: Id)
    requires PairBody(frame.body)
    ensures DispatchBound(st, c, frame, now, pairId).st.sessions == st.sessions
  {
    hide Supersede;
  }

  lemma OtherFrameKeepsSessions(st: State, c: Id, frame: Frame, now: int, pairId: Id)
    requires !PairBody(frame.body) && !frame.body.SessionAccepted? && !frame.body.SessionClose?
    ensures DispatchBound(st, c, frame, now, pairId).st.sessions == st.sessions
  {
    hide RequestKey;
  }

  lemma CloseFrame(st: State, c: Id, frame: Frame, k: Id)
    requires frame.body.SessionClose? && st.Bound(c) && k in st.sessions.rows
    ensures var s, after := st.sessions.rows[k], OnSessionClose(st, c, frame).st.sessions.rows;
      k in after && after[k] == if frame.body.sessionId == k && s.Mentions(c) then s.(state := CLOSED) else s
  {
  }

  lemma RecvRecord(w: World, ev: Event, k: Id)
    requires k in w.st.sessions.rows && ev.Recv?
    ensures var after := Dispatch(w.st, ev.c, ev.frame, ev.now, ev.pairId, ev.nonce).st.sessions.rows;
      k in after && after[k] == NextRecord(w, ev, k)
  {
    hide AcceptGuard, AcceptedSession, OnSessionAccepted, OnSessionClose, DispatchBound, OnHello, OnAuthProof;
    var frame := ev.frame;
    var st1 := Touch(w.st, ev.c, ev.now);
    HelloKeepsSessions(w.st, ev.c, frame, ev.nonce);
    if w.st.Bound(ev.c) && !frame.body.Hello? && !frame.body.AuthProof? {
      if PairBody(frame.body) {
        PairFrameKeepsSessions(st1, ev.c, frame, ev.now, ev.pairId);
      } else if frame.body.SessionAccepted? {
        BoundAccepted(st1, ev.c, frame, ev.now, ev.pairId);
        AcceptStoresExactly(st1, ev.c, frame, ev.now);
        TouchAccepts(w.st, ev.c, ev.now, frame.body);
      } else if frame.body.SessionClose? {
        BoundClose(st1, ev.c, frame, ev.now, ev.pairId);
        CloseFrame(st1, ev.c, frame, k);
      } else {
        OtherFrameKeepsSessions(st1, ev.c, frame, ev.now, ev.pairId);
      }
    }
  }

  lemma HelloKeepsSessions(st: State, c: Id, frame: Frame, nonce: string)
    ensures frame.body.Hello? ==> OnHello(st, c, frame, nonce).st.sessions == st.sessions
    ensures frame.body.AuthProof? ==> OnAuthProof(st, c, frame).st.sessions == st.sessions
  {
  }

  lemma BoundAccepted(st: State, c: Id, frame: Frame, now: int, pairId: Id)
    requires frame.body.SessionAccepted?
    ensures DispatchBound(st, c, frame, now, pairId) == OnSessionAccepted(st, c, frame, now)
  {
  }

  lemma BoundClose(st: State, c: Id, frame: Frame, now: int, pairId: Id)
    requires frame.body.SessionClose?
    ensures DispatchBound(st, c, frame, now, pairId) == OnSessionClose(st, c, frame)
  {
  }

  /**
   * One event: an open session ends exactly by a participant's `session.close` or the close of one of its sockets;
   * any record, a CLOSED one too, is replaced exactly by an acceptance that names its id; nothing else changes it.
   */
  lemma SessionStepExactly(crypto: Crypto, w: World, ev: Event, k: Id)
    requires Enabled(w, ev) && k in w.st.sessions.rows
    ensures var after := Step(crypto, w, ev).st.sessions.rows; k in after && after[k] == NextRecord(w, ev, k)
  {
    hide Dispatch, OnConnClosed, ResumeFingerprint, ResumeVerify, SignatureOk, NextTasks, AcceptGuard, AcceptedSession;
    match ev
    case Recv(_, _, _, _, _) => RecvRecord(w, ev, k);
    case Closed(c) => ClosedSessionRows(w.st, c);
    case FingerprintDone(i) =>
      ResumeKeepsTables(w.st, w.tasks[i].task, crypto.fingerprintOf(w.tasks[i].task.proof.spki), false);
    case VerifyDone(i) => ResumeKeepsTables(w.st, w.tasks[i].task, "", SignatureOk(crypto, w.tasks[i].task));
    case _ =>
  }

  /** Over a run: records never disappear, and one that no event in between ends or overwrites is unchanged. */
  lemma {:induction false} SessionLifecycle(b: Behavior, i: nat, j: nat, k: Id)
    requires b.Valid() && i <= j <= |b.events| && k in b.worlds[i].st.sessions.rows
    ensures k in b.worlds[j].st.sessions.rows
    ensures b.worlds[j].st.sessions.rows[k] == b.worlds[i].st.sessions.rows[k] ||
      exists n :: i <= n < j && Touches(b, n, k)
    decreases j
  {
    hide Step, Ends, Overwrites, NextRecord;
    if i == j {
    } else {
      SessionLifecycle(b, i, j - 1, k);
      assert b.StepAt(j - 1);
      var w := b.worlds[j - 1];
      SessionStepExactly(b.setup.crypto, w, b.events[j - 1], k);
      if !Ends(w, b.events[j - 1], k) && !Overwrites(w, b.events[j - 1], k) {
        UntouchedRecord(w, b.events[j - 1], k);
        assert b.worlds[j].st.sessions.rows[k] == w.st.sessions.rows[k];
      } else {
        assert Touches(b, j - 1, k);
      }
    }
  }

  /** Event n ends or overwrites session k. */
  ghost predicate Touches(b: Behavior, n: nat, k: Id)
    requires b.Valid() && n < |b.events|
  {
    k in b.worlds[n].st.sessions.rows && (Ends(b.worlds[n], b.events[n], k) || Overwrites(b.worlds[n], b.events[n], k))
  }

  lemma UntouchedRecord(w: World, ev: Event, k: Id)
    requires k in w.st.sessions.rows && !Ends(w, ev, k) && !Overwrites(w, ev, k)
    ensures NextRecord(w, ev, k) == w.st.sessions.rows[k]
  {
  }
}
