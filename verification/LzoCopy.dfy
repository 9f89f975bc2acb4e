/** The copying loops of the LZO1X decompressors (Externals/LZO/minilzo.c): four bytes at a
    time where the source does so, equal to copying byte by byte. */
module LzoCopy {
  import opened LzoFormat

  lemma {:induction false} CopyMatchSplit(out: seq<Byte>, dist: int, a: nat, b: nat)
    requires 0 < dist <= |out|
    ensures CopyMatch(out, dist, a + b) == CopyMatch(CopyMatch(out, dist, a), dist, b)
    decreases a
  {
    if a > 0 {
      CopyMatchSplit(out + [out[|out| - dist]], dist, a - 1, b);
    }
  }

  /** Byte i of the copy is the byte dist before it, even inside the copy itself. */
  lemma {:induction false} CopyMatchAt(out: seq<Byte>, dist: int, len: nat, i: nat)
    requires 0 < dist <= |out| && |out| <= i < |out| + len
    ensures CopyMatch(out, dist, len)[i] == CopyMatch(out, dist, len)[i - dist]
    decreases len
  {
    var longer := out + [out[|out| - dist]];
    if i > |out| {
      CopyMatchAt(longer, dist, len - 1, i);
    }
  }

  /** A copy that does not reach into itself is a slice. */
  lemma {:induction false} CopyMatchSlice(out: seq<Byte>, dist: int, len: nat)
    requires 0 < dist <= |out| && len <= dist
    ensures CopyMatch(out, dist, len) == out + out[|out| - dist..|out| - dist + len]
    decreases len
  {
    if len > 0 {
      var longer := out + [out[|out| - dist]];
      CopyMatchSlice(longer, dist, len - 1);
      assert longer[|longer| - dist..|longer| - dist + (len - 1)] == out[|out| - dist + 1..|out| - dist + len];
      assert out[|out| - dist..|out| - dist + len] == [out[|out| - dist]] + out[|out| - dist + 1..|out| - dist + len];
    }
  }

  lemma TakeMore(s: seq<Byte>, i: nat, j: nat)
    requires i <= j <= |s|
    ensures s[..j] == s[..i] + s[i..j]
  {
  }

  /** The next n bytes of a copy at a distance of at least n, already in the buffer. */
  lemma CopyStep(o: seq<Byte>, s: seq<Byte>, dist: int, done: nat, n: nat)
    requires 0 < dist <= |o| && n <= dist && s == CopyMatch(o, dist, done)
    ensures CopyMatch(o, dist, done + n) == s + s[|s| - dist..|s| - dist + n]
  {
    CopyMatchSplit(o, dist, done, n);
    CopyMatchSlice(s, dist, n);
  }

  /** COPY4 from dist bytes back: one load of four bytes, one store. */
  method Copy4Back(out: array<Byte>, pos: nat, dist: int, ghost o: seq<Byte>, ghost done: nat)
    requires 4 <= dist <= pos && pos + 4 <= out.Length && dist <= |o|
    requires out[..pos] == CopyMatch(o, dist, done)
    modifies out
    ensures out[..pos + 4] == CopyMatch(o, dist, done + 4)
  {
    hide CopyMatch;
    ghost var s := out[..pos];
    CopyStep(o, s, dist, done, 4);
    var from := pos - dist;
    out[pos], out[pos + 1], out[pos + 2], out[pos + 3] := out[from], out[from + 1], out[from + 2], out[from + 3];
    assert out[pos..pos + 4] == s[from..from + 4];
    TakeMore(out[..], pos, pos + 4);
  }

  method Copy1Back(out: array<Byte>, pos: nat, dist: int, ghost o: seq<Byte>, ghost done: nat)
    requires 1 <= dist <= pos && pos < out.Length && dist <= |o|
    requires out[..pos] == CopyMatch(o, dist, done)
    modifies out
    ensures out[..pos + 1] == CopyMatch(o, dist, done + 1)
  {
    hide CopyMatch;
    ghost var s := out[..pos];
    CopyStep(o, s, dist, done, 1);
    CopyByte(out, pos, out[pos - dist]);
    assert s[pos - dist..pos - dist + 1] == [s[pos - dist]];
  }

  method CopyByte(out: array<Byte>, op: nat, b: Byte)
    requires op < out.Length
    modifies out
    ensures out[..op + 1] == old(out[..op]) + [b]
  {
    out[op] := b;
    assert out[..op] == old(out[..op]);
  }

  /** do { COPY4 } while four bytes are left. */
  method CopyChunks(out: array<Byte>, op: nat, dist: int, len: nat) returns (done: nat)
    requires 4 <= dist <= op && op + len <= out.Length
    modifies out
    ensures done <= len && out[..op + done] == CopyMatch(old(out[..op]), dist, done)
  {
    ghost var o := out[..op];
    done := 0;
    assert out[..op] == CopyMatch(o, dist, 0);
    hide CopyMatch;
    while len - done >= 4
      invariant done <= len && out[..op + done] == CopyMatch(o, dist, done)
    {
      Copy4Back(out, op + done, dist, o, done);
      done := done + 4;
    }
  }

  /** The match copy of t + 2 bytes.  In M3 and M4 instructions a long match at distance
      four or more goes in chunks; an M2 match, and a short or close one, byte by byte. */
  method CopyBack(out: array<Byte>, op: nat, dist: int, t: nat, chunks: bool)
    requires 0 < dist <= op && op + t + 2 <= out.Length
    modifies out
    ensures out[..op + t + 2] == CopyMatch(old(out[..op]), dist, t + 2)
  {
    ghost var o := out[..op];
    var done: nat := 0;
    assert out[..op] == CopyMatch(o, dist, 0);
    hide CopyMatch;
    if chunks && t >= 6 && dist >= 4 {
      done := CopyChunks(out, op, dist, t + 2);
    }
    while done < t + 2
      invariant done <= t + 2 && out[..op + done] == CopyMatch(o, dist, done)
    {
      Copy1Back(out, op + done, dist, o, done);
      done := done + 1;
    }
  }

  /** COPY4 from the input. */
  method Copy4(input: seq<Byte>, ip: nat, out: array<Byte>, op: nat)
    requires ip + 4 <= |input| && op + 4 <= out.Length
    modifies out
    ensures out[..op + 4] == old(out[..op]) + input[ip..ip + 4]
  {
    out[op], out[op + 1], out[op + 2], out[op + 3] := input[ip], input[ip + 1], input[ip + 2], input[ip + 3];
    assert out[op..op + 4] == input[ip..ip + 4];
    TakeMore(out[..], op, op + 4);
  }

  /** The copy of a literal run of t + 3 bytes, four at a time while four are left. */
  method CopyRun(input: seq<Byte>, ip: nat, out: array<Byte>, op: nat, t: nat)
    requires t > 0 && ip + t + 3 <= |input| && op + t + 3 <= out.Length
    modifies out
    ensures out[..op + t + 3] == old(out[..op]) + input[ip..ip + t + 3]
  {
    ghost var o := out[..op];
    Copy4(input, ip, out, op);
    var done, left := 4, t - 1;
    while left >= 4
      invariant done + left == t + 3
      invariant out[..op + done] == o + input[ip..ip + done]
      decreases left
    {
      assert input[ip..ip + done + 4] == input[ip..ip + done] + input[ip + done..ip + done + 4];
      Copy4(input, ip + done, out, op + done);
      done, left := done + 4, left - 4;
    }
    CopyFew(input, ip + done, out, op + done, left);
    assert input[ip..ip + t + 3] == input[ip..ip + done] + input[ip + done..ip + t + 3];
  }

  /** A few literals, one by one. */
  method CopyFew(input: seq<Byte>, ip: nat, out: array<Byte>, op: nat, n: nat)
    requires ip + n <= |input| && op + n <= out.Length
    modifies out
    ensures out[..op + n] == old(out[..op]) + input[ip..ip + n]
  {
    ghost var o := out[..op];
    var done := 0;
    while done < n
      invariant done <= n
      invariant out[..op + done] == o + input[ip..ip + done]
    {
      assert input[ip..ip + done + 1] == input[ip..ip + done] + [input[ip + done]];
      CopyByte(out, op + done, input[ip + done]);
      done := done + 1;
    }
  }
}
