/**
 * Control frames from the phone to the laptop: their schema, their size on
 * the wire, the sender's numbering and the receiver's sequence guard.
 * JSON and zod are ideal: an encoded frame decodes to the message it came from.
 */
module Control {
  import opened Basics
  import opened Utf16Text

  const MAX_CONTROL_FRAME_BYTES := 16 * 1024
  const MAX_TEXT_LENGTH := 2000
  const MAX_WHEEL_DELTA := 10000
  const MAX_SAFE_INTEGER := 9007199254740991
  const MAX_NONCE_LENGTH := 86

  // ----- messages ------------------------------------------------------------

  /** A JavaScript number in a payload: its value and the length of its decimal text, at most 25 characters. */
  datatype Coord = Coord(value: real, digits: nat)

  datatype Button = LeftButton | RightButton | MiddleButton

  datatype StopReason = User | ErrorReason | Revoked | TargetClosed | ProtocolViolation | Timeout | PeerLeft

  datatype Body =
    | PointerMove(x: Coord, y: Coord)
    | PointerDown(x: Coord, y: Coord, button: Button, clickCount: int)
    | PointerUp(x: Coord, y: Coord, button: Button, clickCount: int)
    | Wheel(x: Coord, y: Coord, deltaX: int, deltaY: int)
    | KeyDown(key: string, code: string, modifiers: int)
    | KeyUp(key: string, code: string, modifiers: int)
    | TextInsert(text: Text)
    | ViewportRequest
    | ViewportSync(cssWidth: int, cssHeight: int, scale: Coord)
    | PeerChallenge(nonce: string, forSession: string)
    | PeerProof(deviceId: string, fingerprint: string, signature: string)
    | SessionStop(reason: StopReason)

  datatype Message = Message(sessionId: string, seqNo: int, ts: int, body: Body)

  // ----- schema ----------------------------------------------------------------

  predicate UnitCoord(c: Coord) { 0.0 <= c.value <= 1.0 && 1 <= c.digits <= 25 }

  predicate IdentifierText(s: string) { forall i :: 0 <= i < |s| ==> IdChar(s[i]) && s[i] != '-' }

  predicate PrintableAscii(s: string) { forall i :: 0 <= i < |s| ==> ' ' <= s[i] <= '~' }

  /** `^[A-Za-z0-9_-]{2,}={0,2}$` */
  predicate Base64Url(s: string) {
    exists n :: 2 <= n <= |s| <= n + 2 && Base64Prefix(s, n)
  }

  predicate Base64Prefix(s: string, n: nat)
    requires n <= |s|
  {
    (forall i :: 0 <= i < n ==> IdChar(s[i])) && (forall i :: n <= i < |s| ==> s[i] == '=')
  }

  predicate ValidBody(b: Body) {
    match b
    case PointerMove(x, y) => UnitCoord(x) && UnitCoord(y)
    case PointerDown(x, y, _, n) => UnitCoord(x) && UnitCoord(y) && 1 <= n <= 3
    case PointerUp(x, y, _, n) => UnitCoord(x) && UnitCoord(y) && 1 <= n <= 3
    case Wheel(x, y, dx, dy) =>
      UnitCoord(x) && UnitCoord(y) && -MAX_WHEEL_DELTA <= dx <= MAX_WHEEL_DELTA && -MAX_WHEEL_DELTA <= dy <= MAX_WHEEL_DELTA
    case KeyDown(key, code, m) => ValidKey(key, code, m)
    case KeyUp(key, code, m) => ValidKey(key, code, m)
    case TextInsert(t) => 1 <= |t| <= MAX_TEXT_LENGTH && WellFormed(t)
    case ViewportRequest => true
    case ViewportSync(w, h, scale) => 50 <= w <= 20000 && 50 <= h <= 20000 && 0.1 <= scale.value <= 10.0 && 1 <= scale.digits <= 25
    case PeerChallenge(nonce, sid) => Base64Url(nonce) && |nonce| * 3 / 4 >= 16 && |nonce| <= MAX_NONCE_LENGTH && ValidId(sid)
    case PeerProof(d, fp, sig) => ValidId(d) && Base64Url(fp) && |fp| <= 64 && Base64Url(sig) && |sig| <= 512
    case SessionStop(_) => true
  }

  predicate ValidKey(key: string, code: string, modifiers: int) {
    && 1 <= |key| <= 32 && PrintableAscii(key)
    && 1 <= |code| <= 64 && IdentifierText(code)
    && 0 <= modifiers <= 15
  }

  /** `controlMessageSchema`; integers are bounded by the safe integers. */
  predicate Schema(m: Message) {
    && ValidId(m.sessionId)
    && 1 <= m.seqNo <= MAX_SAFE_INTEGER
    && 1 <= m.ts <= MAX_SAFE_INTEGER
    && ValidBody(m.body)
  }

  // ----- size of the JSON text in UTF-8 ------------------------------------------

  /** Bytes of one code unit outside a surrogate pair, inside a JSON string. */
  function UnitBytes(u: CodeUnit): nat {
    if u == 0x22 || u == 0x5C then 2                                              // \" and \\
    else if u == 8 || u == 9 || u == 0xA || u == 0xC || u == 0xD then 2           // \b \t \n \f \r
    else if u < 0x20 then 6                                                       // \u00XX
    else if u < 0x80 then 1
    else if u < 0x800 then 2
    else if High(u) || Low(u) then 6                                              // lone surrogate, escaped
    else 3
  }

  /** Bytes of a JSON string literal without its quotes; a pair takes four bytes of UTF-8. */
  function TextBytes(t: Text): nat
    decreases |t|
  {
    if t == [] then 0
    else if |t| >= 2 && High(t[0]) && Low(t[1]) then 4 + TextBytes(t[2..])
    else UnitBytes(t[0]) + TextBytes(t[1..])
  }

  lemma {:induction false} TextBytesBound(t: Text)
    ensures TextBytes(t) <= 6 * |t|
    decreases |t|
  {
    if t == [] {
    } else if |t| >= 2 && High(t[0]) && Low(t[1]) {
      TextBytesBound(t[2..]);
    } else {
      TextBytesBound(t[1..]);
    }
  }

  /** A string of ASCII characters as code units. */
  function Units(s: string): Text
    requires forall i :: 0 <= i < |s| ==> s[i] < 128 as char
  {
    seq(|s|, i requires 0 <= i < |s| => s[i] as int)
  }

  /** Bytes of the text of an ASCII string; anything else never passes the schema. */
  function AsciiBytes(s: string): nat {
    if forall i :: 0 <= i < |s| ==> s[i] < 128 as char then TextBytes(Units(s)) else 6 * |s|
  }

  lemma AsciiBytesBound(s: string)
    ensures AsciiBytes(s) <= 6 * |s|
  {
    if forall i :: 0 <= i < |s| ==> s[i] < 128 as char {
      TextBytesBound(Units(s));
    }
  }

  function Digits(n: nat): nat { if n < 10 then 1 else 1 + Digits(n / 10) }

  function Pow10(k: nat): nat { if k == 0 then 1 else 10 * Pow10(k - 1) }

  lemma {:induction false} DigitsBound(n: nat, k: nat)
    requires k >= 1 && n < Pow10(k)
    ensures Digits(n) <= k
  {
    if n < 10 {
    } else {
      assert k >= 2 by { assert Pow10(1) == 10 * Pow10(0); }
      DigitsBound(n / 10, k - 1);
    }
  }

  lemma SafeIntegerDigits(n: nat)
    requires n <= MAX_SAFE_INTEGER
    ensures Digits(n) <= 16
  {
    assert Pow10(4) == 10000;
    assert Pow10(8) == 100000000;
    assert Pow10(12) == 1000000000000;
    assert Pow10(16) == 10000000000000000;
    DigitsBound(n, 16);
  }

  function IntBytes(n: int): nat { if n < 0 then 1 + Digits(-n) else Digits(n) }

  function ReasonText(r: StopReason): string {
    match r
    case User => "user"
    case ErrorReason => "error"
    case Revoked => "revoked"
    case TargetClosed => "target-closed"
    case ProtocolViolation => "protocol-violation"
    case Timeout => "timeout"
    case PeerLeft => "peer-left"
  }

  function ButtonText(b: Button): string {
    match b
    case LeftButton => "left"
    case RightButton => "right"
    case MiddleButton => "middle"
  }

  function TypeText(b: Body): string {
    match b
    case PointerMove(_, _) => "pointer.move"
    case PointerDown(_, _, _, _) => "pointer.down"
    case PointerUp(_, _, _, _) => "pointer.up"
    case Wheel(_, _, _, _) => "wheel"
    case KeyDown(_, _, _) => "key.down"
    case KeyUp(_, _, _) => "key.up"
    case TextInsert(_) => "text.insert"
    case ViewportRequest => "viewport.request"
    case ViewportSync(_, _, _) => "viewport.sync"
    case PeerChallenge(_, _) => "peer.challenge"
    case PeerProof(_, _, _) => "peer.proof"
    case SessionStop(_) => "session.stop"
  }

  /** Bytes of the payload object: the fixed skeleton and the values. */
  function PayloadBytes(b: Body): nat {
    match b
    case PointerMove(x, y) => |"{'x':,'y':}"| + x.digits + y.digits
    case PointerDown(x, y, btn, n) => |"{'x':,'y':,'button':'','clickCount':}"| + x.digits + y.digits + |ButtonText(btn)| + IntBytes(n)
    case PointerUp(x, y, btn, n) => |"{'x':,'y':,'button':'','clickCount':}"| + x.digits + y.digits + |ButtonText(btn)| + IntBytes(n)
    case Wheel(x, y, dx, dy) => |"{'x':,'y':,'deltaX':,'deltaY':}"| + x.digits + y.digits + IntBytes(dx) + IntBytes(dy)
    case KeyDown(key, code, m) => |"{'key':'','code':'','modifiers':}"| + AsciiBytes(key) + AsciiBytes(code) + IntBytes(m)
    case KeyUp(key, code, m) => |"{'key':'','code':'','modifiers':}"| + AsciiBytes(key) + AsciiBytes(code) + IntBytes(m)
    case TextInsert(t) => |"{'text':''}"| + TextBytes(t)
    case ViewportRequest => |"{}"|
    case ViewportSync(w, h, scale) => |"{'cssWidth':,'cssHeight':,'deviceScaleFactor':}"| + IntBytes(w) + IntBytes(h) + scale.digits
    case PeerChallenge(nonce, sid) => |"{'nonce':'','sessionId':''}"| + AsciiBytes(nonce) + AsciiBytes(sid)
    case PeerProof(d, fp, sig) => |"{'deviceId':'','publicKeyFingerprint':'','signature':''}"| + AsciiBytes(d) + AsciiBytes(fp) + AsciiBytes(sig)
    case SessionStop(r) => |"{'reason':''}"| + |ReasonText(r)|
  }

  /** Bytes of the whole frame as `JSON.stringify` and `TextEncoder` make it. */
  function FrameBytes(m: Message): nat {
    |"{'v':1,'sessionId':'','seq':,'ts':,'type':'','payload':}"|
    + AsciiBytes(m.sessionId) + IntBytes(m.seqNo) + IntBytes(m.ts) + |TypeText(m.body)| + PayloadBytes(m.body)
  }

  lemma PayloadFits(b: Body)
    requires ValidBody(b)
    ensures PayloadBytes(b) <= 12100
  {
    match b
    case TextInsert(t) => TextBytesBound(t);
    case KeyDown(key, code, m) =>
      AsciiBytesBound(key);
      AsciiBytesBound(code);
      SafeIntegerDigits(m);
    case KeyUp(key, code, m) =>
      AsciiBytesBound(key);
      AsciiBytesBound(code);
      SafeIntegerDigits(m);
    case PeerChallenge(nonce, sid) =>
      AsciiBytesBound(nonce);
      AsciiBytesBound(sid);
    case PeerProof(d, fp, sig) =>
      AsciiBytesBound(d);
      AsciiBytesBound(fp);
      AsciiBytesBound(sig);
    case Wheel(_, _, dx, dy) =>
      SafeIntegerDigits(if dx < 0 then -dx else dx);
      SafeIntegerDigits(if dy < 0 then -dy else dy);
    case PointerDown(_, _, _, n) => SafeIntegerDigits(n);
    case PointerUp(_, _, _, n) => SafeIntegerDigits(n);
    case ViewportSync(w, h, _) =>
      SafeIntegerDigits(w);
      SafeIntegerDigits(h);
    case _ =>
  }

  /** Every frame that passes its schema fits the wire bound, the longest text included. */
  lemma ValidFrameFits(m: Message)
    requires Schema(m)
    ensures FrameBytes(m) <= MAX_CONTROL_FRAME_BYTES
  {
    PayloadFits(m.body);
    AsciiBytesBound(m.sessionId);
    SafeIntegerDigits(m.seqNo);
    SafeIntegerDigits(m.ts);
    assert |TypeText(m.body)| <= 16;
  }

  // ----- the sender's numbering -----------------------------------------------------

  /** The session of a sender and the last number it handed out. */
  datatype Sender = Sender(sessionId: string, lastNo: nat)

  /** What asking for a frame gives: the frame, or an exception. */
  datatype Built = Frame(message: Message) | Threw

  function Candidate(s: Sender, b: Body, ts: int): Message {
    Message(s.sessionId, s.lastNo + 1, ts, b)
  }

  /** Encode one frame: a number is used up exactly when a frame comes out. */
  function Encode(s: Sender, b: Body, ts: int): (Sender, Built) {
    if Schema(Candidate(s, b, ts)) then (s.(lastNo := s.lastNo + 1), Frame(Candidate(s, b, ts)))
    else (s, Threw)
  }

  class ControlSender {
    const sessionId: string
    var lastNo: nat

    constructor (sessionId: string)
      ensures this.sessionId == sessionId && lastNo == 0
    {
      this.sessionId := sessionId;
      lastNo := 0;
    }

    ghost function View(): Sender
      reads this
    {
      Sender(sessionId, lastNo)
    }

    /**
     * Take the next number, give it back when the schema refuses the frame, and encode. The size check comes
     * after the number is taken, and never fails.
     */
    method Build(b: Body, ts: int) returns (r: Built)
      modifies this
      ensures (View(), r) == Encode(old(View()), b, ts)
    {
      lastNo := lastNo + 1;
      var message := Message(sessionId, lastNo, ts, b);
      if !Schema(message) {
        lastNo := lastNo - 1;
        return Threw;
      }
      ValidFrameFits(message);
      if FrameBytes(message) <= MAX_CONTROL_FRAME_BYTES {
        r := Frame(message);
      } else {
        assert false;
      }
    }
  }

  // ----- the receiver's guard ---------------------------------------------------------

  datatype Verdict = Accepted | MessageInvalid | MessageTooLarge | ReplayRejected

  /** `SequenceGuard.check`: exactly the next number is accepted, and only then does the guard move. */
  function CheckSeq(last: nat, n: int): (nat, Verdict) {
    if n < 1 || n > MAX_SAFE_INTEGER then (last, MessageInvalid)
    else if n <= last then (last, ReplayRejected)
    else if n != last + 1 then (last, MessageInvalid)
    else (n, Accepted)
  }

  class SequenceGuard {
    var lastSeq: nat

    constructor ()
      ensures lastSeq == 0
    {
      lastSeq := 0;
    }

    method Check(n: int) returns (v: Verdict)
      modifies this
      ensures (lastSeq, v) == CheckSeq(old(lastSeq), n)
    {
      if !(-MAX_SAFE_INTEGER <= n <= MAX_SAFE_INTEGER) || n < 1 {
        return MessageInvalid;
      }
      if n <= lastSeq {
        return ReplayRejected;
      }
      if n != lastSeq + 1 {
        return MessageInvalid;
      }
      lastSeq := n;
      v := Accepted;
    }
  }

  // ----- sender and guard together --------------------------------------------------------

  /** Ask a sender for one frame after another; requests that throw give nothing. */
  function EncodeAll(s: Sender, requests: seq<(Body, int)>): (Sender, seq<Message>)
    decreases |requests|
  {
    if requests == [] then (s, [])
    else
      var (s', r) := Encode(s, requests[0].0, requests[0].1);
      var (s'', rest) := EncodeAll(s', requests[1..]);
      (s'', if r.Frame? then [r.message] + rest else rest)
  }

  function GuardRun(last: nat, frames: seq<Message>): (nat, bool)
    decreases |frames|
  {
    if frames == [] then (last, true)
    else
      match CheckSeq(last, frames[0].seqNo)
      case (next, Accepted) => GuardRun(next, frames[1..])
      case (next, _) => (next, false)
  }

  /**
   * Requests that fail their schema leave no trace in the numbering: the counter is the number of frames that
   * came out, and a guard in step with the sender accepts all of them in order.
   */
  lemma {:induction false} FramesAreGapless(s: Sender, requests: seq<(Body, int)>)
    ensures var (s', frames) := EncodeAll(s, requests);
      s'.lastNo == s.lastNo + |frames| && GuardRun(s.lastNo, frames) == (s'.lastNo, true)
    decreases |requests|
  {
    hide ValidBody;
    if requests == [] {
    } else {
      FramesAreGapless(Encode(s, requests[0].0, requests[0].1).0, requests[1..]);
    }
  }
}
