/**
 * Canonical transcripts: every field is written as a 4-byte big-endian length
 * followed by its bytes, so no two field lists share an encoding.
 */
module Transcript {
  import opened Basics
  import Utf8

  type Byte = Utf8.Byte

  const U32 := 0x1_0000_0000

  /** `DataView.setUint32(_, n, false)`: big-endian, modulo 2^32. */
  function Word(n: nat): (w: seq<Byte>)
    ensures |w| == 4
  {
    var m := n % U32;
    [m / 0x100_0000, m / 0x1_0000 % 256, m / 256 % 256, m % 256]
  }

  function WordValue(w: seq<Byte>): nat
    requires |w| == 4
  {
    var w0: int, w1: int, w2: int, w3: int := w[0], w[1], w[2], w[3];
    w0 * 0x100_0000 + w1 * 0x1_0000 + w2 * 256 + w3
  }

  lemma WordRoundTrip(n: nat)
    requires n < U32
    ensures WordValue(Word(n)) == n
  {
  }

  /** The encoding of a list of fields already turned into bytes. */
  function EncodeFields(fields: seq<seq<Byte>>): seq<Byte> {
    if fields == [] then []
    else Word(|fields[0]|) + fields[0] + EncodeFields(fields[1..])
  }

  function FieldBytes(fields: seq<string>): (r: seq<seq<Byte>>)
    ensures |r| == |fields|
    ensures forall i :: 0 <= i < |fields| ==> r[i] == Utf8.Encode(fields[i])
  {
    seq(|fields|, i requires 0 <= i < |fields| => Utf8.Encode(fields[i]))
  }

  /** `encodeTranscript`; None is the exception for a transcript without a domain separator. */
  function EncodeTranscript(fields: seq<string>): Option<seq<Byte>> {
    if fields == [] then None else Some(EncodeFields(FieldBytes(fields)))
  }

  ghost predicate Fits(fields: seq<seq<Byte>>) {
    forall i :: 0 <= i < |fields| ==> |fields[i]| < U32
  }

  /** Undo `EncodeFields`; None when the bytes are not a sequence of length-prefixed fields. */
  function DecodeFields(bytes: seq<Byte>): Option<seq<seq<Byte>>>
    decreases |bytes|
  {
    if bytes == [] then Some([])
    else if |bytes| < 4 then None
    else
      var n := WordValue(bytes[..4]);
      if |bytes| < 4 + n then None
      else
        match DecodeFields(bytes[4 + n..])
        case None => None
        case Some(rest) => Some([bytes[4..4 + n]] + rest)
  }

  /** Decoding an encoded transcript gives its fields back. */
  lemma {:induction false} DecodeEncode(fields: seq<seq<Byte>>)
    requires Fits(fields)
    ensures DecodeFields(EncodeFields(fields)) == Some(fields)
  {
    if fields == [] {
    } else {
      var f, rest := fields[0], fields[1..];
      var bytes := EncodeFields(fields);
      WordRoundTrip(|f|);
      assert bytes[..4] == Word(|f|);
      assert bytes[4..4 + |f|] == f;
      assert bytes[4 + |f|..] == EncodeFields(rest);
      DecodeEncode(rest);
      assert [f] + rest == fields;
    }
  }

  /** Two lists of fields shorter than 2^32 bytes with the same encoding are the same list. */
  lemma EncodeFieldsInjective(a: seq<seq<Byte>>, b: seq<seq<Byte>>)
    requires Fits(a) && Fits(b)
    requires EncodeFields(a) == EncodeFields(b)
    ensures a == b
  {
    DecodeEncode(a);
    DecodeEncode(b);
  }

  /** Text short enough that even four bytes a character stay below 2^32. */
  predicate ShortText(fields: seq<string>) {
    forall i :: 0 <= i < |fields| ==> |fields[i]| < 0x4000_0000
  }

  lemma ShortTextFits(fields: seq<string>)
    requires ShortText(fields)
    ensures Fits(FieldBytes(fields))
  {
    forall i | 0 <= i < |fields| ensures |FieldBytes(fields)[i]| < U32 {
      Utf8.EncodeLength(fields[i]);
    }
  }

  /** Transcripts of text fields never coincide: a different domain, role or nonce means different bytes. */
  lemma TranscriptInjective(a: seq<string>, b: seq<string>)
    requires a != [] && b != [] && ShortText(a) && ShortText(b)
    ensures EncodeTranscript(a) == EncodeTranscript(b) <==> a == b
  {
    if EncodeTranscript(a) == EncodeTranscript(b) {
      ShortTextFits(a);
      ShortTextFits(b);
      EncodeFieldsInjective(FieldBytes(a), FieldBytes(b));
      assert |a| == |FieldBytes(a)| == |FieldBytes(b)| == |b|;
      forall i | 0 <= i < |a| ensures a[i] == b[i] {
        assert FieldBytes(a)[i] == FieldBytes(b)[i];
        Utf8.EncodeInjective(a[i], b[i]);
      }
    }
  }

  // ----- the length bound is needed ---------------------------------------------

  function Zeros(n: nat): (r: seq<Byte>)
    ensures |r| == n && forall i :: 0 <= i < n ==> r[i] == 0
  {
    seq(n, _ => 0)
  }

  function EmptyFields(n: nat): (r: seq<seq<Byte>>)
    ensures |r| == n && forall i :: 0 <= i < n ==> r[i] == []
  {
    seq(n, _ => [])
  }

  lemma {:induction false} EmptyFieldsEncoding(n: nat)
    ensures EncodeFields(EmptyFields(n)) == Zeros(4 * n)
  {
    if n == 0 {
    } else {
      EmptyFieldsEncoding(n - 1);
      assert EmptyFields(n)[1..] == EmptyFields(n - 1);
      assert Word(0) == Zeros(4);
      assert EncodeFields(EmptyFields(n)) == Word(0) + [] + EncodeFields(EmptyFields(n - 1));
    }
  }

  /** A field of exactly 2^32 bytes wraps its length prefix to zero and collides with a list of empty fields. */
  lemma LongFieldCollides()
    ensures [Zeros(U32)] != EmptyFields(U32 / 4 + 1)
    ensures EncodeFields([Zeros(U32)]) == EncodeFields(EmptyFields(U32 / 4 + 1))
  {
    var long: seq<seq<Byte>> := [Zeros(U32)];
    EmptyFieldsEncoding(U32 / 4 + 1);
    assert EncodeFields(long[1..]) == [];
    assert Word(U32) == Zeros(4);
    assert Zeros(4) + Zeros(U32) + [] == Zeros(4 + U32);
    assert |long| == 1;
  }

  // ----- the buffer-filling algorithm -----------------------------------------------

  /** The `reduce` that sizes the buffer. */
  function TotalLength(encoded: seq<seq<Byte>>): nat {
    if encoded == [] then 0
    else TotalLength(encoded[..|encoded| - 1]) + 4 + |encoded[|encoded| - 1]|
  }

  lemma {:induction false} EncodeFieldsSnoc(fields: seq<seq<Byte>>, f: seq<Byte>)
    ensures EncodeFields(fields + [f]) == EncodeFields(fields) + Word(|f|) + f
  {
    if fields == [] {
      assert [f][1..] == [];
      assert fields + [f] == [f];
    } else {
      assert (fields + [f])[1..] == fields[1..] + [f];
      EncodeFieldsSnoc(fields[1..], f);
      assert EncodeFields(fields + [f])
          == Word(|fields[0]|) + fields[0] + (EncodeFields(fields[1..]) + Word(|f|) + f);
    }
  }

  lemma {:induction false} TotalLengthIsExact(encoded: seq<seq<Byte>>)
    ensures |EncodeFields(encoded)| == TotalLength(encoded)
  {
    if encoded == [] {
    } else {
      var n := |encoded| - 1;
      TotalLengthIsExact(encoded[..n]);
      EncodeFieldsSnoc(encoded[..n], encoded[n]);
      assert encoded[..n] + [encoded[n]] == encoded;
    }
  }

  lemma {:induction false} TotalLengthMonotone(encoded: seq<seq<Byte>>, k: nat)
    requires k <= |encoded|
    ensures TotalLength(encoded[..k]) <= TotalLength(encoded)
  {
    if k < |encoded| {
      var n := |encoded| - 1;
      assert encoded[..n][..k] == encoded[..k];
      TotalLengthMonotone(encoded[..n], k);
    } else {
      assert encoded[..k] == encoded;
    }
  }

  /** Copy `b` into `out` at `offset` (`Uint8Array.set`). */
  method CopyInto(out: array<Byte>, offset: nat, b: seq<Byte>)
    requires offset + |b| <= out.Length
    modifies out
    ensures out[..] == old(out[..offset]) + b + old(out[offset + |b|..])
  {
    for i := 0 to |b|
      invariant out[..] == old(out[..offset]) + b[..i] + old(out[offset + i..])
    {
      ghost var before := out[..];
      out[offset + i] := b[i];
      assert out[..] == before[offset + i := b[i]];
    }
  }

  /** Write one length-prefixed field at the running offset. */
  method AppendField(out: array<Byte>, offset: nat, b: seq<Byte>) returns (next: nat)
    requires offset + 4 + |b| <= out.Length
    modifies out
    ensures next == offset + 4 + |b|
    ensures out[..next] == old(out[..offset]) + Word(|b|) + b
  {
    CopyInto(out, offset, Word(|b|));
    assert out[..offset + 4] == old(out[..offset]) + Word(|b|);
    CopyInto(out, offset + 4, b);
    next := offset + 4 + |b|;
  }

  lemma NoFields()
    ensures TotalLength([]) == 0 && EncodeFields([]) == []
  {
  }

  lemma OneMoreLength(fields: seq<seq<Byte>>, f: seq<Byte>)
    ensures TotalLength(fields + [f]) == TotalLength(fields) + 4 + |f|
  {
    assert (fields + [f])[..|fields|] == fields;
  }

  /** Fill a buffer of exactly the right size, field by field. */
  method FillBuffer(out: array<Byte>, encoded: seq<seq<Byte>>)
    requires out.Length == TotalLength(encoded)
    modifies out
    ensures out[..] == EncodeFields(encoded)
  {
    hide EncodeFields, TotalLength, Word;
    NoFields();
    var offset := 0;
    for i := 0 to |encoded|
      invariant offset == TotalLength(encoded[..i]) <= out.Length
      invariant out[..offset] == EncodeFields(encoded[..i])
    {
      assert encoded[..i + 1] == encoded[..i] + [encoded[i]];
      assert encoded[..i + 1][..i] == encoded[..i];
      TotalLengthMonotone(encoded, i + 1);
      OneMoreLength(encoded[..i], encoded[i]);
      EncodeFieldsSnoc(encoded[..i], encoded[i]);
      offset := AppendField(out, offset, encoded[i]);
    }
    assert encoded[..|encoded|] == encoded;
    assert out[..offset] == out[..];
  }

  /** `encodeTranscript`; `ok` is false where the original throws. */
  method EncodeIntoBuffer(fields: seq<string>) returns (ok: bool, out: array<Byte>)
    ensures ok <==> fields != []
    ensures ok ==> EncodeTranscript(fields) == Some(out[..])
    ensures fresh(out)
  {
    if fields == [] {
      ok := false;
      out := new Byte[0];
      return;
    }
    ok := true;
    var encoded := FieldBytes(fields);
    out := new Byte[TotalLength(encoded)];
    FillBuffer(out, encoded);
  }
}
