/** UTF-16 text: when it is well formed, and how typed text is cut into chunks. */
module Utf16Text {
  type CodeUnit = u: nat | u < 0x10000
  type Text = seq<CodeUnit>

  predicate High(u: CodeUnit) { 0xD800 <= u <= 0xDBFF }
  predicate Low(u: CodeUnit) { 0xDC00 <= u <= 0xDFFF }

  /**
   * Well-formed UTF-16 (section 3.9 of the Unicode Standard): every high surrogate is directly followed by a
   * low one, and every low surrogate directly preceded by a high one.
   */
  predicate WellFormed(t: Text) {
    && (forall i :: 0 <= i < |t| && High(t[i]) ==> i + 1 < |t| && Low(t[i + 1]))
    && (forall i :: 0 <= i < |t| && Low(t[i]) ==> 0 < i && High(t[i - 1]))
  }

  /** The scan behind `wellFormedText`: it skips over each pair and refuses any lone surrogate. */
  method ScanWellFormed(s: Text) returns (ok: bool)
    ensures ok <==> WellFormed(s)
  {
    var i := 0;
    while i < |s|
      invariant 0 <= i <= |s|
      invariant forall k :: 0 <= k < i && High(s[k]) ==> k + 1 < i && Low(s[k + 1])
      invariant forall k :: 0 <= k < i && Low(s[k]) ==> 0 < k && High(s[k - 1])
    {
      var c := s[i];
      if 0xD800 <= c <= 0xDBFF {
        if i + 1 >= |s| {
          assert High(s[i]);
          return false;
        }
        i := i + 1;
        var d := s[i];
        if !(0xDC00 <= d <= 0xDFFF) {
          assert High(s[i - 1]) && !Low(s[i]);
          return false;
        }
      } else if 0xDC00 <= c <= 0xDFFF {
        assert Low(s[i]) && (i > 0 ==> !High(s[i - 1]));
        return false;
      }
      i := i + 1;
    }
    ok := true;
  }

  // ----- cutting text into chunks ------------------------------------------------

  function Min(a: int, b: int): int { if a < b then a else b }

  /** Where the chunk starting at `start` ends: `max` units on, one less when that would split a pair. */
  function ChunkEnd(t: Text, start: nat, max: nat): nat
    requires start < |t|
  {
    var end := Min(start + max, |t|);
    if end < |t| && end > 0 && High(t[end - 1]) then end - 1 else end
  }

  /** The chunks from `start` on; cutting stops where a chunk would be empty. */
  function Chunks(t: Text, start: nat, max: nat): seq<Text>
    requires start <= |t|
    decreases |t| - start
  {
    if start == |t| then []
    else
      var end := ChunkEnd(t, start, max);
      if end <= start then [] else [t[start..end]] + Chunks(t, end, max)
  }

  function SplitSpec(t: Text, max: nat): seq<Text> { Chunks(t, 0, max) }

  function Concat(chunks: seq<Text>): Text {
    if chunks == [] then [] else chunks[0] + Concat(chunks[1..])
  }

  lemma {:induction false} ConcatAppend(a: seq<Text>, b: seq<Text>)
    ensures Concat(a + b) == Concat(a) + Concat(b)
  {
    if a == [] {
      assert a + b == b;
    } else {
      assert (a + b)[1..] == a[1..] + b;
      ConcatAppend(a[1..], b);
    }
  }

  /** `splitTextChunks`. */
  method SplitTextChunks(t: Text, max: nat) returns (chunks: seq<Text>)
    ensures chunks == SplitSpec(t, max)
  {
    if |t| == 0 {
      return [];
    }
    hide Chunks;
    chunks := [];
    var start := 0;
    while start < |t|
      invariant 0 <= start <= |t|
      invariant chunks + Chunks(t, start, max) == SplitSpec(t, max)
    {
      var end := Min(start + max, |t|);
      if end < |t| && end > 0 {
        var c := t[end - 1];
        if 0xD800 <= c <= 0xDBFF {
          end := end - 1;
        }
      }
      NextChunk(t, start, max);
      if end <= start {
        return;
      }
      assert chunks + ([t[start..end]] + Chunks(t, end, max)) == chunks + [t[start..end]] + Chunks(t, end, max);
      chunks := chunks + [t[start..end]];
      start := end;
    }
    NextChunk(t, start, max);
  }

  lemma NextChunk(t: Text, start: nat, max: nat)
    requires start <= |t|
    ensures start == |t| ==> Chunks(t, start, max) == []
    ensures start < |t| ==>
      var end := ChunkEnd(t, start, max);
      Chunks(t, start, max) == if end <= start then [] else [t[start..end]] + Chunks(t, end, max)
  {
  }

  /** With room for a pair in every chunk the cutting always reaches the end of the text. */
  lemma {:induction false} ChunksCover(t: Text, start: nat, max: nat)
    requires start <= |t| && max >= 2
    ensures Concat(Chunks(t, start, max)) == t[start..]
    ensures forall c :: c in Chunks(t, start, max) ==> 0 < |c| <= max
    decreases |t| - start
  {
    if start == |t| {
    } else {
      var end := ChunkEnd(t, start, max);
      ChunksCover(t, end, max);
      var rest := Chunks(t, end, max);
      assert ([t[start..end]] + rest)[1..] == rest;
      assert t[start..end] + t[end..] == t[start..];
    }
  }

  /** Chunks of one unit: the cutting covers the text exactly when no high surrogate comes before the last unit. */
  lemma {:induction false} UnitChunksCover(t: Text, start: nat)
    requires start <= |t|
    ensures Concat(Chunks(t, start, 1)) == t[start..] <==> forall i :: start <= i < |t| - 1 ==> !High(t[i])
    ensures |Concat(Chunks(t, start, 1))| <= |t| - start
    decreases |t| - start
  {
    if start == |t| {
    } else {
      var end := ChunkEnd(t, start, 1);
      if end <= start {
        assert High(t[start]) && start < |t| - 1;
        assert Concat(Chunks(t, start, 1)) == [];
      } else {
        UnitChunksCover(t, end);
        var rest := Chunks(t, end, 1);
        assert ([t[start..end]] + rest)[1..] == rest;
        assert Concat(Chunks(t, start, 1)) == t[start..end] + Concat(rest);
        assert t[start..end] + t[end..] == t[start..];
        if Concat(Chunks(t, start, 1)) == t[start..] {
          assert Concat(rest) == t[start..][1..] == t[end..];
        }
      }
    }
  }

  /** Nothing is lost exactly when chunks have room for a pair, or one unit is enough for every character but the last. */
  lemma SplitLosesNothingExactly(t: Text, max: nat)
    ensures Concat(SplitSpec(t, max)) == t
            <==> (max >= 2 || t == [] || (max == 1 && forall i :: 0 <= i < |t| - 1 ==> !High(t[i])))
  {
    assert t[0..] == t;
    if max >= 2 {
      ChunksCover(t, 0, max);
    } else if max == 1 {
      UnitChunksCover(t, 0);
    } else if t != [] {
      assert ChunkEnd(t, 0, 0) == 0;
    }
  }

  lemma {:induction false} ConcatSlices(t: Text, start: nat, max: nat)
    requires start <= |t| && max >= 2 && WellFormed(t)
    requires start == 0 || start == |t| || !High(t[start - 1])
    ensures forall c :: c in Chunks(t, start, max) ==> WellFormed(c)
    decreases |t| - start
  {
    if start == |t| {
    } else {
      var end := ChunkEnd(t, start, max);
      assert end == |t| || !High(t[end - 1]) by {
        if end < |t| && end == Min(start + max, |t|) - 1 {
          assert High(t[end]) && !Low(t[end]);
        }
      }
      var c := t[start..end];
      assert WellFormed(c) by {
        assert forall i :: 0 <= i < |c| ==> c[i] == t[start + i];
        assert start == 0 || !Low(t[start]);
      }
      ConcatSlices(t, end, max);
    }
  }

  lemma WellFormedJoin(a: Text, b: Text)
    requires WellFormed(a) && WellFormed(b)
    ensures WellFormed(a + b)
  {
    var t := a + b;
    forall i | 0 <= i < |t| && High(t[i]) ensures i + 1 < |t| && Low(t[i + 1]) {
      if i >= |a| { assert High(b[i - |a|]); } else { assert High(a[i]); }
    }
    forall i | 0 <= i < |t| && Low(t[i]) ensures 0 < i && High(t[i - 1]) {
      if i >= |a| { assert Low(b[i - |a|]); } else { assert Low(a[i]); }
    }
  }

  lemma {:induction false} WellFormedConcat(chunks: seq<Text>)
    requires forall c :: c in chunks ==> WellFormed(c)
    ensures WellFormed(Concat(chunks))
  {
    if chunks == [] {
    } else {
      WellFormedConcat(chunks[1..]);
      WellFormedJoin(chunks[0], Concat(chunks[1..]));
    }
  }

  /** A pair is never split: the chunks are all well formed exactly when the text was. */
  lemma ChunksWellFormedExactly(t: Text, max: nat)
    requires max >= 2
    ensures (forall c :: c in SplitSpec(t, max) ==> WellFormed(c)) <==> WellFormed(t)
  {
    assert t[0..] == t;
    ChunksCover(t, 0, max);
    if WellFormed(t) {
      ConcatSlices(t, 0, max);
    } else if forall c :: c in SplitSpec(t, max) ==> WellFormed(c) {
      WellFormedConcat(SplitSpec(t, max));
    }
  }

  /** All chunks but the last carry at least `max - 1` units. */
  lemma {:induction false} ChunkCount(t: Text, start: nat, max: nat)
    requires start <= |t| && max >= 2
    ensures start < |t| ==> (|Chunks(t, start, max)| - 1) * (max - 1) < |t| - start
    ensures start == |t| ==> |Chunks(t, start, max)| == 0
    decreases |t| - start
  {
    if start == |t| {
    } else {
      var end := ChunkEnd(t, start, max);
      ChunkCount(t, end, max);
      var n := |Chunks(t, end, max)|;
      assert |Chunks(t, start, max)| == n + 1;
      if end < |t| {
        assert n * (max - 1) == (n - 1) * (max - 1) + (max - 1);
      }
    }
  }

  /** There are at most ceil(length / (max - 1)) chunks. */
  lemma SplitCount(t: Text, max: nat)
    requires max >= 2
    ensures |SplitSpec(t, max)| <= (|t| + max - 2) / (max - 1)
  {
    ChunkCount(t, 0, max);
    var n, m := |SplitSpec(t, max)|, max - 1;
    if t != [] {
      assert (n - 1) * m < |t|;
      CeilBound(n, m, |t|);
    }
  }

  lemma CeilBound(n: int, m: int, len: int)
    requires m >= 1 && (n - 1) * m < len
    ensures n <= (len + m - 1) / m
  {
    var q := (len + m - 1) / m;
    assert q * m + (len + m - 1) % m == len + m - 1;
    if n > q {
      assert (n - 1) * m >= q * m by {
        MulMonotone(q, n - 1, m);
      }
      assert false;
    }
  }

  lemma MulMonotone(a: int, b: int, m: int)
    requires a <= b && m >= 0
    ensures a * m <= b * m
  {
  }
}
