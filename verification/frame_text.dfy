/**
 * The text of a control frame as `JSON.stringify` writes it, and the proof that
 * the sizes the frame bound is checked against are its exact UTF-8 sizes.
 */
module FrameText {
  import opened Basics
  import opened Utf16Text
  import opened Control
  import Utf8

  /** Bytes of a text in UTF-8. */
  function Size(s: string): nat { |Utf8.Encode(s)| }

  predicate Ascii(s: string) { forall i :: 0 <= i < |s| ==> s[i] < 128 as char }

  lemma {:induction false} SizeConcat(s: string, t: string)
    ensures Size(s + t) == Size(s) + Size(t)
  {
    if s == [] {
      assert s + t == t;
    } else {
      SizeConcat(s[1..], t);
      assert (s + t)[1..] == s[1..] + t;
    }
  }

  lemma {:induction false} AsciiSize(s: string)
    requires Ascii(s)
    ensures Size(s) == |s|
  {
    if s == [] {
    } else {
      AsciiSize(s[1..]);
    }
  }

  // ----- strings --------------------------------------------------------------------

  function HexDigit(n: nat): char
    requires n < 16
  {
    if n < 10 then (0x30 + n) as char else (0x57 + n) as char
  }

  /** The escape of a code unit by its number. */
  function UnicodeEscape(u: CodeUnit): string {
    ['\\', 'u', HexDigit(u / 0x1000), HexDigit(u / 0x100 % 16), HexDigit(u / 16 % 16), HexDigit(u % 16)]
  }

  /** One code unit outside a surrogate pair. */
  function EscapedUnit(u: CodeUnit): string {
    if u == 0x22 then "\\\""
    else if u == 0x5C then "\\\\"
    else if u == 8 then "\\b"
    else if u == 9 then "\\t"
    else if u == 0xA then "\\n"
    else if u == 0xC then "\\f"
    else if u == 0xD then "\\r"
    else if u < 0x20 || High(u) || Low(u) then UnicodeEscape(u)
    else [u as char]
  }

  /** The code point of a surrogate pair. */
  function PairPoint(h: CodeUnit, l: CodeUnit): char
    requires High(h) && Low(l)
  {
    (0x10000 + (h - 0xD800) * 0x400 + (l - 0xDC00)) as char
  }

  /** The inside of a JSON string literal. */
  function Escaped(t: Text): string
    decreases |t|
  {
    if t == [] then []
    else if |t| >= 2 && High(t[0]) && Low(t[1]) then [PairPoint(t[0], t[1])] + Escaped(t[2..])
    else EscapedUnit(t[0]) + Escaped(t[1..])
  }

  lemma OneChar(c: char)
    ensures Utf8.Encode([c]) == Utf8.EncodeChar(c)
  {
    assert [c][1..] == [];
  }

  lemma UnitSize(u: CodeUnit)
    ensures Size(EscapedUnit(u)) == UnitBytes(u)
  {
    var e := EscapedUnit(u);
    if Ascii(e) {
      AsciiSize(e);
    } else {
      OneChar(u as char);
    }
  }

  /** The bytes counted for a string are the bytes of its escaped text in UTF-8. */
  lemma {:induction false} TextBytesExactly(t: Text)
    ensures TextBytes(t) == Size(Escaped(t))
    decreases |t|
  {
    if t == [] {
    } else if |t| >= 2 && High(t[0]) && Low(t[1]) {
      TextBytesExactly(t[2..]);
      OneChar(PairPoint(t[0], t[1]));
      SizeConcat([PairPoint(t[0], t[1])], Escaped(t[2..]));
    } else {
      TextBytesExactly(t[1..]);
      UnitSize(t[0]);
      SizeConcat(EscapedUnit(t[0]), Escaped(t[1..]));
    }
  }

  function Json(s: string): string
    requires Ascii(s)
  {
    Escaped(Units(s))
  }

  // ----- numbers ----------------------------------------------------------------------

  function NatText(n: nat): string {
    if n < 10 then [HexDigit(n)] else NatText(n / 10) + [HexDigit(n % 10)]
  }

  function IntText(n: int): string { if n < 0 then "-" + NatText(-n) else NatText(n) }

  lemma {:induction false} NatTextSize(n: nat)
    ensures |NatText(n)| == Digits(n) && Ascii(NatText(n))
    decreases n
  {
    if n < 10 {
    } else {
      NatTextSize(n / 10);
    }
  }

  lemma IntTextSize(n: int)
    ensures Size(IntText(n)) == IntBytes(n)
  {
    NatTextSize(if n < 0 then -n else n);
    AsciiSize(IntText(n));
  }

  // ----- frames -----------------------------------------------------------------------

  /** How numbers of a payload are written: ASCII text of the length the coordinate carries. */
  ghost predicate Writes(num: Coord -> string) { forall c :: Ascii(num(c)) && |num(c)| == c.digits }

  /** The strings of a valid payload other than typed text are ASCII. */
  predicate AsciiBody(b: Body) {
    match b
    case KeyDown(key, code, _) => Ascii(key) && Ascii(code)
    case KeyUp(key, code, _) => Ascii(key) && Ascii(code)
    case PeerChallenge(nonce, sid) => Ascii(nonce) && Ascii(sid)
    case PeerProof(d, fp, sig) => Ascii(d) && Ascii(fp) && Ascii(sig)
    case _ => true
  }

  lemma ValidIsAscii(b: Body)
    requires ValidBody(b)
    ensures AsciiBody(b)
  {
  }

  /** The members of the payload object, as names with the text of their values. */
  function Members(b: Body, num: Coord -> string): seq<(string, string)>
    requires AsciiBody(b)
  {
    match b
    case PointerMove(x, y) => [("x", num(x)), ("y", num(y))]
    case PointerDown(x, y, btn, n) => [("x", num(x)), ("y", num(y)), ("button", Quoted(ButtonText(btn))), ("clickCount", IntText(n))]
    case PointerUp(x, y, btn, n) => [("x", num(x)), ("y", num(y)), ("button", Quoted(ButtonText(btn))), ("clickCount", IntText(n))]
    case Wheel(x, y, dx, dy) => [("x", num(x)), ("y", num(y)), ("deltaX", IntText(dx)), ("deltaY", IntText(dy))]
    case KeyDown(key, code, m) => [("key", Quoted(Json(key))), ("code", Quoted(Json(code))), ("modifiers", IntText(m))]
    case KeyUp(key, code, m) => [("key", Quoted(Json(key))), ("code", Quoted(Json(code))), ("modifiers", IntText(m))]
    case TextInsert(t) => [("text", Quoted(Escaped(t)))]
    case ViewportRequest => []
    case ViewportSync(w, h, scale) => [("cssWidth", IntText(w)), ("cssHeight", IntText(h)), ("deviceScaleFactor", num(scale))]
    case PeerChallenge(nonce, sid) => [("nonce", Quoted(Json(nonce))), ("sessionId", Quoted(Json(sid)))]
    case PeerProof(d, fp, sig) => [("deviceId", Quoted(Json(d))), ("publicKeyFingerprint", Quoted(Json(fp))), ("signature", Quoted(Json(sig)))]
    case SessionStop(r) => [("reason", Quoted(ReasonText(r)))]
  }

  function Quoted(s: string): string { "\"" + s + "\"" }

  /** Name and value with the comma before all but the first. */
  function MembersText(ms: seq<(string, string)>): string {
    if ms == [] then []
    else
      var n := |ms| - 1;
      MembersText(ms[..n]) + (if n == 0 then "" else ",") + Quoted(ms[n].0) + ":" + ms[n].1
  }

  function ObjectText(ms: seq<(string, string)>): string { "{" + MembersText(ms) + "}" }

  /** `JSON.stringify` of a frame. */
  function FrameJson(m: Message, num: Coord -> string): string
    requires Ascii(m.sessionId) && AsciiBody(m.body)
  {
    ObjectText([("v", "1"), ("sessionId", Quoted(Json(m.sessionId))), ("seq", IntText(m.seqNo)), ("ts", IntText(m.ts)),
                ("type", Quoted(TypeText(m.body))), ("payload", ObjectText(Members(m.body, num)))])
  }

  /** Bytes of an object's members: names, values, quotes, colons and commas. */
  function MembersSize(ms: seq<(string, string)>): nat {
    if ms == [] then 0
    else
      var n := |ms| - 1;
      MembersSize(ms[..n]) + (if n == 0 then 0 else 1) + Size(ms[n].0) + 3 + Size(ms[n].1)
  }

  lemma QuotedSize(s: string)
    ensures Size(Quoted(s)) == Size(s) + 2
  {
    AsciiSize("\"");
    SizeConcat("\"", s);
    SizeConcat("\"" + s, "\"");
  }

  lemma {:induction false} MembersTextSize(ms: seq<(string, string)>)
    ensures Size(MembersText(ms)) == MembersSize(ms)
  {
    if ms == [] {
    } else {
      var n := |ms| - 1;
      var front := MembersText(ms[..n]);
      var comma := if n == 0 then "" else ",";
      MembersTextSize(ms[..n]);
      AsciiSize(comma);
      AsciiSize(":");
      QuotedSize(ms[n].0);
      SizeConcat(front, comma);
      SizeConcat(front + comma, Quoted(ms[n].0));
      SizeConcat(front + comma + Quoted(ms[n].0), ":");
      SizeConcat(front + comma + Quoted(ms[n].0) + ":", ms[n].1);
    }
  }

  lemma ObjectTextSize(ms: seq<(string, string)>)
    ensures Size(ObjectText(ms)) == 2 + MembersSize(ms)
  {
    MembersTextSize(ms);
    AsciiSize("{");
    AsciiSize("}");
    SizeConcat("{", MembersText(ms));
    SizeConcat("{" + MembersText(ms), "}");
  }

  function MemberSize(m: (string, string)): nat { Size(m.0) + 3 + Size(m.1) }

  lemma OneMember(a: (string, string))
    ensures MembersSize([a]) == MemberSize(a)
  {
    assert [a][..0] == [];
  }

  lemma TwoMembers(a: (string, string), b: (string, string))
    ensures MembersSize([a, b]) == MemberSize(a) + 1 + MemberSize(b)
  {
    assert [a, b][..1] == [a];
    OneMember(a);
  }

  lemma ThreeMembers(a: (string, string), b: (string, string), c: (string, string))
    ensures MembersSize([a, b, c]) == MemberSize(a) + 1 + MemberSize(b) + 1 + MemberSize(c)
  {
    assert [a, b, c][..2] == [a, b];
    TwoMembers(a, b);
  }

  lemma FourMembers(a: (string, string), b: (string, string), c: (string, string), d: (string, string))
    ensures MembersSize([a, b, c, d]) == MemberSize(a) + 1 + MemberSize(b) + 1 + MemberSize(c) + 1 + MemberSize(d)
  {
    assert [a, b, c, d][..3] == [a, b, c];
    ThreeMembers(a, b, c);
  }

  lemma SixMembers(a: (string, string), b: (string, string), c: (string, string), d: (string, string), e: (string, string), f: (string, string))
    ensures MembersSize([a, b, c, d, e, f])
         == MemberSize(a) + 1 + MemberSize(b) + 1 + MemberSize(c) + 1 + MemberSize(d) + 1 + MemberSize(e) + 1 + MemberSize(f)
  {
    var five := [a, b, c, d, e];
    assert [a, b, c, d, e, f][..5] == five;
    assert five[..4] == [a, b, c, d];
    FourMembers(a, b, c, d);
  }

  lemma JsonSize(s: string)
    requires Ascii(s)
    ensures Size(Quoted(Json(s))) == AsciiBytes(s) + 2
  {
    TextBytesExactly(Units(s));
    QuotedSize(Json(s));
  }

  /** A word between quotes, or the name of a member. */
  lemma WordSize(s: string)
    requires Ascii(s)
    ensures Size(s) == |s| && Size(Quoted(s)) == |s| + 2
  {
    AsciiSize(s);
    QuotedSize(s);
  }

  lemma PointSize(x: Coord, y: Coord, num: Coord -> string)
    requires Writes(num)
    ensures MemberSize(("x", num(x))) == 4 + x.digits && MemberSize(("y", num(y))) == 4 + y.digits
  {
    AsciiSize("x");
    AsciiSize("y");
    AsciiSize(num(x));
    AsciiSize(num(y));
  }

  lemma ClickSize(x: Coord, y: Coord, btn: Button, n: int, num: Coord -> string)
    requires Writes(num)
    ensures MembersSize([("x", num(x)), ("y", num(y)), ("button", Quoted(ButtonText(btn))), ("clickCount", IntText(n))])
         == |"'x':,'y':,'button':'','clickCount':"| + x.digits + y.digits + |ButtonText(btn)| + IntBytes(n)
  {
    hide Size, MembersSize, IntText;
    FourMembers(("x", num(x)), ("y", num(y)), ("button", Quoted(ButtonText(btn))), ("clickCount", IntText(n)));
    PointSize(x, y, num);
    WordSize("button");
    WordSize("clickCount");
    WordSize(ButtonText(btn));
    IntTextSize(n);
  }

  lemma KeySize(key: string, code: string, m: int)
    requires Ascii(key) && Ascii(code)
    ensures MembersSize([("key", Quoted(Json(key))), ("code", Quoted(Json(code))), ("modifiers", IntText(m))])
         == |"'key':'','code':'','modifiers':"| + AsciiBytes(key) + AsciiBytes(code) + IntBytes(m)
  {
    hide Size, MembersSize, IntText, Json, Quoted, AsciiBytes;
    ThreeMembers(("key", Quoted(Json(key))), ("code", Quoted(Json(code))), ("modifiers", IntText(m)));
    WordSize("key");
    WordSize("code");
    WordSize("modifiers");
    JsonSize(key);
    JsonSize(code);
    IntTextSize(m);
  }

  lemma WheelSize(x: Coord, y: Coord, dx: int, dy: int, num: Coord -> string)
    requires Writes(num)
    ensures MembersSize([("x", num(x)), ("y", num(y)), ("deltaX", IntText(dx)), ("deltaY", IntText(dy))])
         == |"'x':,'y':,'deltaX':,'deltaY':"| + x.digits + y.digits + IntBytes(dx) + IntBytes(dy)
  {
    hide Size, MembersSize, IntText;
    FourMembers(("x", num(x)), ("y", num(y)), ("deltaX", IntText(dx)), ("deltaY", IntText(dy)));
    PointSize(x, y, num);
    WordSize("deltaX");
    WordSize("deltaY");
    IntTextSize(dx);
    IntTextSize(dy);
  }

  lemma ViewportSize(w: int, h: int, scale: Coord, num: Coord -> string)
    requires Writes(num)
    ensures MembersSize([("cssWidth", IntText(w)), ("cssHeight", IntText(h)), ("deviceScaleFactor", num(scale))])
         == |"'cssWidth':,'cssHeight':,'deviceScaleFactor':"| + IntBytes(w) + IntBytes(h) + scale.digits
  {
    hide Size, MembersSize, IntText;
    ThreeMembers(("cssWidth", IntText(w)), ("cssHeight", IntText(h)), ("deviceScaleFactor", num(scale)));
    WordSize("cssWidth");
    WordSize("cssHeight");
    WordSize("deviceScaleFactor");
    IntTextSize(w);
    IntTextSize(h);
    AsciiSize(num(scale));
  }

  lemma ChallengeSize(nonce: string, sid: string)
    requires Ascii(nonce) && Ascii(sid)
    ensures MembersSize([("nonce", Quoted(Json(nonce))), ("sessionId", Quoted(Json(sid)))])
         == |"'nonce':'','sessionId':''"| + AsciiBytes(nonce) + AsciiBytes(sid)
  {
    hide Size, MembersSize, Json, Quoted, AsciiBytes;
    TwoMembers(("nonce", Quoted(Json(nonce))), ("sessionId", Quoted(Json(sid))));
    WordSize("nonce");
    WordSize("sessionId");
    JsonSize(nonce);
    JsonSize(sid);
  }

  lemma ProofSize(d: string, fp: string, sig: string)
    requires Ascii(d) && Ascii(fp) && Ascii(sig)
    ensures MembersSize([("deviceId", Quoted(Json(d))), ("publicKeyFingerprint", Quoted(Json(fp))), ("signature", Quoted(Json(sig)))])
         == |"'deviceId':'','publicKeyFingerprint':'','signature':''"| + AsciiBytes(d) + AsciiBytes(fp) + AsciiBytes(sig)
  {
    hide Size, MembersSize, Json, Quoted, AsciiBytes;
    ThreeMembers(("deviceId", Quoted(Json(d))), ("publicKeyFingerprint", Quoted(Json(fp))), ("signature", Quoted(Json(sig))));
    WordSize("deviceId");
    WordSize("publicKeyFingerprint");
    WordSize("signature");
    JsonSize(d);
    JsonSize(fp);
    JsonSize(sig);
  }

  /** A payload with one quoted member. */
  lemma QuotedMemberSize(name: string, value: string)
    requires Ascii(name)
    ensures MembersSize([(name, Quoted(value))]) == |name| + 5 + Size(value)
  {
    hide Size, MembersSize, Quoted;
    OneMember((name, Quoted(value)));
    WordSize(name);
    QuotedSize(value);
  }

  lemma TextSize(t: Text)
    ensures MembersSize([("text", Quoted(Escaped(t)))]) == |"'text':''"| + TextBytes(t)
  {
    hide Size, MembersSize, Quoted, Escaped, TextBytes;
    QuotedMemberSize("text", Escaped(t));
    TextBytesExactly(t);
  }

  lemma StopSize(r: StopReason)
    ensures MembersSize([("reason", Quoted(ReasonText(r)))]) == |"'reason':''"| + |ReasonText(r)|
  {
    hide Size, MembersSize, Quoted, ReasonText;
    QuotedMemberSize("reason", ReasonText(r));
    ReasonSize(r);
  }

  lemma MoveSize(x: Coord, y: Coord, num: Coord -> string)
    requires Writes(num)
    ensures MembersSize([("x", num(x)), ("y", num(y))]) == |"'x':,'y':"| + x.digits + y.digits
  {
    hide Size, MembersSize;
    TwoMembers(("x", num(x)), ("y", num(y)));
    PointSize(x, y, num);
  }

  predicate Pointing(b: Body) { b.PointerMove? || b.PointerDown? || b.PointerUp? || b.Wheel? }

  lemma PointingSize(b: Body, num: Coord -> string)
    requires Writes(num) && Pointing(b)
    ensures PayloadBytes(b) == 2 + MembersSize(Members(b, num))
  {
    hide Size, MembersSize, IntText, Quoted, IntBytes, Writes, ButtonText;
    match b
    case PointerMove(x, y) => MoveSize(x, y, num);
    case PointerDown(x, y, btn, n) => ClickSize(x, y, btn, n, num);
    case PointerUp(x, y, btn, n) => ClickSize(x, y, btn, n, num);
    case Wheel(x, y, dx, dy) => WheelSize(x, y, dx, dy, num);
  }

  predicate Naming(b: Body) { b.KeyDown? || b.KeyUp? || b.PeerChallenge? || b.PeerProof? }

  lemma NamingSize(b: Body, num: Coord -> string)
    requires AsciiBody(b) && Naming(b)
    ensures PayloadBytes(b) == 2 + MembersSize(Members(b, num))
  {
    hide Size, MembersSize, IntText, Json, Quoted, AsciiBytes, IntBytes, Ascii;
    match b
    case KeyDown(key, code, m) => KeySize(key, code, m);
    case KeyUp(key, code, m) => KeySize(key, code, m);
    case PeerChallenge(nonce, sid) => ChallengeSize(nonce, sid);
    case PeerProof(d, fp, sig) => ProofSize(d, fp, sig);
  }

  lemma OtherSize(b: Body, num: Coord -> string)
    requires Writes(num) && AsciiBody(b) && !Naming(b) && !Pointing(b)
    ensures PayloadBytes(b) == 2 + MembersSize(Members(b, num))
  {
    hide Size, MembersSize, IntText, Quoted, TextBytes, Escaped, IntBytes, Writes, ReasonText;
    match b
    case TextInsert(t) => TextSize(t);
    case ViewportRequest => NoMembers();
    case ViewportSync(w, h, scale) => ViewportSize(w, h, scale, num);
    case SessionStop(r) => StopSize(r);
  }

  lemma PayloadSize(b: Body, num: Coord -> string)
    requires Writes(num) && AsciiBody(b)
    ensures PayloadBytes(b) == 2 + MembersSize(Members(b, num))
  {
    hide *;
    if Pointing(b) {
      PointingSize(b, num);
    } else if Naming(b) {
      NamingSize(b, num);
    } else {
      OtherSize(b, num);
    }
  }

  /** The bytes counted for a payload are those of its JSON text. */
  lemma PayloadBytesExactly(b: Body, num: Coord -> string)
    requires Writes(num) && AsciiBody(b)
    ensures PayloadBytes(b) == Size(ObjectText(Members(b, num)))
  {
    hide Size, MembersSize, Members, PayloadBytes, ObjectText, Writes, AsciiBody;
    PayloadSize(b, num);
    ObjectTextSize(Members(b, num));
  }

  lemma ReasonSize(r: StopReason)
    ensures Size(ReasonText(r)) == |ReasonText(r)|
  {
    AsciiSize(ReasonText(r));
  }

  lemma NoMembers()
    ensures MembersSize([]) == 0
  {
  }

  lemma EnvelopeSize(sid: string, seqNo: string, ts: string, kind: string, payload: string)
    requires Ascii(sid) && Ascii(kind)
    ensures MembersSize([("v", "1"), ("sessionId", Quoted(Json(sid))), ("seq", seqNo), ("ts", ts), ("type", Quoted(kind)), ("payload", payload)])
         == |"'v':1,'sessionId':'','seq':,'ts':,'type':'','payload':"| + AsciiBytes(sid) + Size(seqNo) + Size(ts) + |kind| + Size(payload)
  {
    hide Size, MembersSize, Json, Quoted, AsciiBytes;
    SixMembers(("v", "1"), ("sessionId", Quoted(Json(sid))), ("seq", seqNo), ("ts", ts), ("type", Quoted(kind)), ("payload", payload));
    WordSize("v");
    WordSize("1");
    WordSize("sessionId");
    WordSize("seq");
    WordSize("ts");
    WordSize("type");
    WordSize("payload");
    WordSize(kind);
    JsonSize(sid);
  }

  lemma AsciiParts(m: Message)
    requires Schema(m)
    ensures Ascii(m.sessionId) && AsciiBody(m.body) && Ascii(TypeText(m.body))
  {
    ValidIsAscii(m.body);
    hide ValidBody, AsciiBody;
  }

  /**
   * The size that the bound of 16 KiB is checked against is exactly the number of UTF-8 bytes of the frame's JSON
   * text, for every frame that passes its schema and however its coordinates are written.
   */
  lemma FrameBytesExactly(m: Message, num: Coord -> string)
    requires Schema(m) && Writes(num)
    ensures Ascii(m.sessionId) && AsciiBody(m.body)
    ensures FrameBytes(m) == Size(FrameJson(m, num))
  {
    hide Size, MembersSize, IntText, Json, Quoted, AsciiBytes, ObjectText, Members, PayloadBytes, ValidBody, AsciiBody, Ascii;
    hide Schema, IntBytes, TypeText, Writes;
    AsciiParts(m);
    var payload := ObjectText(Members(m.body, num));
    ObjectTextSize([("v", "1"), ("sessionId", Quoted(Json(m.sessionId))), ("seq", IntText(m.seqNo)), ("ts", IntText(m.ts)),
                    ("type", Quoted(TypeText(m.body))), ("payload", payload)]);
    EnvelopeSize(m.sessionId, IntText(m.seqNo), IntText(m.ts), TypeText(m.body), payload);
    IntTextSize(m.seqNo);
    IntTextSize(m.ts);
    PayloadBytesExactly(m.body, num);
  }
}
