/** Vocabulary shared by every module: options, wire identifiers and plane vectors. */
module Basics {
  datatype Option<+T> = None | Some(value: T)

  predicate IdChar(ch: char) {
    || 'A' <= ch <= 'Z'
    || 'a' <= ch <= 'z'
    || '0' <= ch <= '9'
    || ch == '_'
    || ch == '-'
  }

  predicate ValidId(s: string) {
    8 <= |s| <= 64 && forall i :: 0 <= i < |s| ==> IdChar(s[i])
  }

  /** The text of an identifier, as the wire schema admits it. */
  type IdText = s: string | ValidId(s) witness "aaaaaaaa"

  /** Identifiers of devices, connections, sessions, pairings and requests. */
  datatype Id = Id(text: IdText)

  datatype Vec = Vec(x: real, y: real)

  const ZERO := Vec(0.0, 0.0)

  function Plus(a: Vec, b: Vec): Vec { Vec(a.x + b.x, a.y + b.y) }

  function Minus(a: Vec, b: Vec): Vec { Vec(a.x - b.x, a.y - b.y) }

  function Scaled(k: real, a: Vec): Vec { Vec(k * a.x, k * a.y) }
}
