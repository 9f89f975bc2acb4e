/** The instructions lzo1x_1_compress writes (Externals/LZO/minilzo.c), and what a
    decompressor makes of a stream that begins with them. */
module LzoEncoding {
  import opened LzoFormat

  /** A length that did not fit its field: zero bytes worth 255 and a last byte. */
  function LongBytes(t: nat): (r: seq<Byte>)
    requires t > 0
    ensures |r| >= 1
    decreases t
  {
    if t > 255 then [0] + LongBytes(t - 255) else [t]
  }

  lemma {:induction false} LongBytesSize(t: nat)
    requires t > 0
    ensures 255 * (|LongBytes(t)| - 1) < t <= 255 * |LongBytes(t)|
    decreases t
  {
    if t > 255 { LongBytesSize(t - 255); }
  }

  /** The header of a run of n literals, at least four. */
  function RunHeader(n: nat): seq<Byte>
    requires n >= 4
  {
    if n <= 18 then [n - 3] else [0] + LongBytes(n - 18)
  }

  function OffsetBytes(offset: nat): seq<Byte> {
    [(offset % 64) * 4, (offset / 64) % 256]
  }

  /** The first byte and the extra length bytes of an M3 or M4 instruction whose length
      field holds at most max. */
  function FarHeader(marker: Byte, len: nat, max: nat): seq<Byte>
    requires 2 < len && max <= 33 && marker + max - 2 < 256
  {
    if len <= max then [marker + len - 2] else [marker] + LongBytes(len - max)
  }

  predicate ValidMatch(dist: int, len: int) {
    0 < dist <= M4_MAX_OFFSET && 3 <= len
  }

  /** The bytes of a match. */
  function MatchBytes(dist: int, len: int): (r: seq<Byte>)
    requires ValidMatch(dist, len)
    ensures |r| >= 2
  {
    if dist <= M2_MAX_OFFSET && len <= M2_MAX_LEN then
      [(len - 1) * 32 + ((dist - 1) % 8) * 4, (dist - 1) / 8]
    else if dist <= M3_MAX_OFFSET then
      FarHeader(M3_MARKER, len, 33) + OffsetBytes(dist - 1)
    else
      FarHeader(M4_MARKER + ((dist - 0x4000) / 0x4000) * 8, len, 9) + OffsetBytes(dist - 0x4000)
  }

  /** op[-2] |= k: the next-to-last byte takes a literal count into its low bits. */
  function Patched(o: seq<Byte>, k: int): (r: seq<Byte>)
    requires |o| >= 2 && o[|o| - 2] % 4 == 0 && 0 <= k < 4
    ensures |r| == |o|
  {
    o[|o| - 2 := o[|o| - 2] + k]
  }

  /** The next-to-last byte of a match has its low bits free. */
  lemma MatchBytesFree(dist: int, len: int)
    requires ValidMatch(dist, len)
    ensures MatchBytes(dist, len)[|MatchBytes(dist, len)| - 2] % 4 == 0
  {
  }

  /** Reading a long length back. */
  lemma {:induction false} LongRead(input: seq<Byte>, ip: nat, t: nat)
    requires t > 0 && ip <= |input| && LongBytes(t) <= input[ip..]
    ensures ip + Zeros(input, ip) < |input|
    ensures 255 * Zeros(input, ip) + input[ip + Zeros(input, ip)] == t
    ensures Zeros(input, ip) + 1 == |LongBytes(t)|
    decreases t
  {
    assert input[ip] == input[ip..][0] == LongBytes(t)[0];
    if t > 255 {
      assert LongBytes(t)[1..] == LongBytes(t - 255);
      assert input[ip..][1..] == input[ip + 1..];
      LongRead(input, ip + 1, t - 255);
    }
  }

  lemma PrefixAt(input: seq<Byte>, ip: nat, a: seq<Byte>, b: seq<Byte>)
    requires ip <= |input| && a + b <= input[ip..]
    ensures ip + |a| + |b| <= |input|
    ensures a <= input[ip..] && b <= input[ip + |a|..]
    ensures forall i :: 0 <= i < |a| ==> input[ip + i] == a[i]
    ensures forall i :: 0 <= i < |b| ==> input[ip + |a| + i] == b[i]
  {
    assert input[ip..][|a|..] == input[ip + |a|..];
    forall i | 0 <= i < |a|
      ensures input[ip + i] == a[i]
    {
      assert input[ip + i] == input[ip..][i];
    }
    forall i | 0 <= i < |b|
      ensures input[ip + |a| + i] == b[i]
    {
      assert input[ip + |a| + i] == input[ip..][|a| + i];
    }
  }

  /** The decompressor reads a run header as the number it was written for. */
  lemma RunRead(input: seq<Byte>, ip: nat, x: seq<Byte>, n: nat, cap: nat)
    requires n >= 4 && ip <= |input| && RunHeader(n) <= input[ip..]
    ensures Instruction(input, ip, x, 0, cap, true)
      == Literals(input, ip + |RunHeader(n)|, x, n, LITERAL_RUN, cap, true)
  {
    assert input[ip] == input[ip..][0];
    if n > 18 {
      PrefixAt(input, ip, [0], LongBytes(n - 18));
      LongRead(input, ip + 1, n - 18);
    }
  }

  predicate ValidMarker(marker: int) {
    marker == M3_MARKER || marker == M4_MARKER || marker == M4_MARKER + 8
  }

  function Mask(marker: int): nat {
    if marker >= M3_MARKER then 31 else 7
  }

  lemma MarkerFields(marker: int, t: int)
    requires ValidMarker(marker) && 0 <= t <= Mask(marker)
    ensures 16 <= marker + t < 64 && (marker + t) % (Mask(marker) + 1) == t
    ensures marker + t >= M3_MARKER <==> marker >= M3_MARKER
    ensures marker < M3_MARKER ==> ((marker + t) / 8) % 2 == (marker / 8) % 2
  {
  }

  /** The length of an M3 or M4 instruction is read back, and its marker survives. */
  lemma FarRead(input: seq<Byte>, ip: nat, x: seq<Byte>, marker: Byte, len: nat, cap: nat)
    requires 2 < len && ValidMarker(marker)
    requires ip <= |input| && FarHeader(marker, len, Mask(marker) + 2) <= input[ip..]
    ensures ip < |input| && 16 <= input[ip] < 64
    ensures FarLength(input, ip + 1, x, input[ip], cap, true)
         == Far(input, ip + |FarHeader(marker, len, Mask(marker) + 2)|, x, input[ip], len - 2, cap, true)
    ensures input[ip] >= M3_MARKER <==> marker >= M3_MARKER
    ensures marker < M3_MARKER ==> (input[ip] / 8) % 2 == (marker / 8) % 2
  {
    hide Far, Zeros, LongBytes;
    var max := Mask(marker) + 2;
    assert input[ip] == input[ip..][0];
    MarkerFields(marker, if len <= max then len - 2 else 0);
    if len > max {
      PrefixAt(input, ip, [marker], LongBytes(len - max));
      LongRead(input, ip + 1, len - max);
    }
  }

  /** The two offset bytes, with k literals to follow in the low bits of the first. */
  lemma OffsetRead(low: Byte, high: Byte, offset: nat, k: int)
    requires 0 <= k < 4 && low == OffsetBytes(offset)[0] + k && high == OffsetBytes(offset)[1]
    ensures low % 4 == k
    ensures (low / 4) as int + (high as int) * 64 == offset % 0x4000
  {
    assert low / 4 == offset % 64;
    assert offset % 0x4000 == offset % 64 + offset / 64 % 256 * 64;
  }

  /** The marker and the offset field of an M3 or M4 match. */
  function Marker(dist: int): int {
    if dist <= M3_MAX_OFFSET then M3_MARKER else M4_MARKER + ((dist - 0x4000) / 0x4000) * 8
  }

  function Offset(dist: int): int {
    if dist <= M3_MAX_OFFSET then dist - 1 else dist - 0x4000
  }

  lemma FarPieces(dist: int, len: int)
    requires ValidMatch(dist, len) && (dist > M2_MAX_OFFSET || len > M2_MAX_LEN)
    ensures ValidMarker(Marker(dist)) && Offset(dist) >= 0
    ensures MatchBytes(dist, len) == FarHeader(Marker(dist), len, Mask(Marker(dist)) + 2) + OffsetBytes(Offset(dist))
    ensures Marker(dist) >= M3_MARKER <==> dist <= M3_MAX_OFFSET
    ensures if dist <= M3_MAX_OFFSET then Offset(dist) % 0x4000 == dist - 1
      else dist == ((Marker(dist) / 8) % 2) * 0x4000 + Offset(dist) % 0x4000 + 0x4000 && dist != 0x4000
  {
    hide FarHeader, OffsetBytes;
  }

  lemma FarStart(input: seq<Byte>, ip: nat, x: seq<Byte>, trail: Trail, cap: nat)
    requires ip + 1 < |input| && 16 <= input[ip] < 64
    ensures Instruction(input, ip, x, trail, cap, true) == FarLength(input, ip + 1, x, input[ip], cap, true)
  {
    hide FarLength;
  }

  lemma FarTail(input: seq<Byte>, p: nat, x: seq<Byte>, first: Byte, dist: int, len: int, cap: nat)
    requires p + 2 <= |input| && first >= 16 && len > 2 && ValidMatch(dist, len)
    requires first >= M3_MARKER <==> dist <= M3_MAX_OFFSET
    requires var offset := (input[p] / 4) as int + (input[p + 1] as int) * 64;
      if dist <= M3_MAX_OFFSET then offset == dist - 1
      else dist == ((first / 8) % 2) as int * 0x4000 + offset + 0x4000 && dist != 0x4000
    ensures Far(input, p, x, first, len - 2, cap, true) == Match(input, p + 2, x, dist, len, cap, true)
  {
    hide Match;
  }

  /** An M3 or M4 match with k in its low bits is read as the match it was written for. */
  lemma FarMatchRead(input: seq<Byte>, ip: nat, x: seq<Byte>, dist: int, len: int, k: int, trail: Trail, cap: nat)
    requires ValidMatch(dist, len) && 0 <= k < 4 && (dist > M2_MAX_OFFSET || len > M2_MAX_LEN)
    requires MatchBytes(dist, len)[|MatchBytes(dist, len)| - 2] % 4 == 0
    requires ip <= |input| && Patched(MatchBytes(dist, len), k) <= input[ip..] && |input| > ip + 1
    ensures var end := ip + |MatchBytes(dist, len)|;
            && end <= |input| && input[end - 2] % 4 == k
            && Instruction(input, ip, x, trail, cap, true) == Match(input, end, x, dist, len, cap, true)
  {
    hide Match, FarLength, Far, Instruction, MatchBytes, FarHeader, Marker, Offset;
    FarPieces(dist, len);
    var m, marker, offset := MatchBytes(dist, len), Marker(dist), Offset(dist);
    var head := FarHeader(marker, len, Mask(marker) + 2);
    var low := OffsetBytes(offset)[0] + k;
    var high := OffsetBytes(offset)[1];
    assert Patched(m, k) == head + [low, high];
    PrefixAt(input, ip, head, [low, high]);
    FarRead(input, ip, x, marker, len, cap);
    FarStart(input, ip, x, trail, cap);
    var p := ip + |head|;
    assert input[p] == [low, high][0] && input[p + 1] == [low, high][1];
    OffsetRead(low, high, offset, k);
    FarTail(input, p, x, input[ip], dist, len, cap);
  }

  lemma NearFields(dist: int, len: int, k: int)
    requires 0 < dist <= M2_MAX_OFFSET && 3 <= len <= M2_MAX_LEN && 0 <= k < 4
    ensures var first := (len - 1) * 32 + ((dist - 1) % 8) * 4 + k;
            && 64 <= first < 256 && first % 4 == k && first / 32 + 1 == len
            && 1 + (first / 4) % 8 + ((dist - 1) / 8) * 8 == dist
  {
  }

  /** The same for an M2 match. */
  lemma NearMatchRead(input: seq<Byte>, ip: nat, x: seq<Byte>, dist: int, len: int, k: int, trail: Trail, cap: nat)
    requires ValidMatch(dist, len) && 0 <= k < 4 && dist <= M2_MAX_OFFSET && len <= M2_MAX_LEN
    requires MatchBytes(dist, len)[0] % 4 == 0
    requires ip <= |input| && Patched(MatchBytes(dist, len), k) <= input[ip..]
    ensures ip + 2 <= |input| && input[ip] % 4 == k
    ensures Instruction(input, ip, x, trail, cap, true) == Match(input, ip + 2, x, dist, len, cap, true)
  {
    hide Match;
    assert input[ip] == input[ip..][0] == Patched(MatchBytes(dist, len), k)[0];
    assert input[ip + 1] == input[ip..][1] == MatchBytes(dist, len)[1];
    NearFields(dist, len, k);
  }

  /** The matches only the decompressors know: two bytes from at most 1024 back after one to three
      literals, and three bytes from 2049 to 3072 back after a longer run. */
  lemma {:induction false} ShortMatchRead(input: seq<Byte>, ip: nat, x: seq<Byte>, dist: int, k: int, trail: Trail,
                                          cap: nat, safe: bool)
    requires 0 <= k < 4 && trail > 0 && ip + 2 <= |input|
    requires if trail <= 3 then 1 <= dist <= 1024 else 2049 <= dist <= 3072
    requires var d := if trail <= 3 then dist - 1 else dist - 2049;
      input[ip] == d % 4 * 4 + k && input[ip + 1] == d / 4
    ensures input[ip] % 4 == k
    ensures Instruction(input, ip, x, trail, cap, safe)
      == Match(input, ip + 2, x, dist, if trail <= 3 then 2 else 3, cap, safe)
  {
    hide Match, FarLength;
  }

  /** Every stream that goes on after o with at least three more bytes is decoded by
      writing x and going on from there. */
  ghost predicate Reaches(o: seq<Byte>, x: seq<Byte>, trail: Trail) {
    forall z: seq<Byte>, cap: nat :: o <= z && |z| >= |o| + 3 && |x| <= cap ==>
      Decode(z, cap, true) == Instruction(z, |o|, x, trail, cap, true)
  }

  /** o ends with a match whose literal count is still 0 and can become 1, 2 or 3. */
  ghost predicate Pending(o: seq<Byte>, x: seq<Byte>) {
    && |o| >= 2 && o[|o| - 2] % 4 == 0
    && Reaches(o, x, 0)
    && forall lits: seq<Byte> :: 1 <= |lits| <= 3 ==> Reaches(Patched(o, |lits|) + lits, x + lits, |lits|)
  }

  lemma ReachesUse(o: seq<Byte>, x: seq<Byte>, trail: Trail, z: seq<Byte>, cap: nat)
    requires Reaches(o, x, trail) && o <= z && |z| >= |o| + 3 && |x| <= cap
    ensures Decode(z, cap, true) == Instruction(z, |o|, x, trail, cap, true)
  {
  }

  lemma Rest(z: seq<Byte>, a: seq<Byte>, b: seq<Byte>)
    requires a + b <= z
    ensures a <= z && b <= z[|a|..]
  {
    assert z[..|a|] == (a + b)[..|a|];
    assert z[|a|..][..|b|] == z[|a|..|a| + |b|] == (a + b)[|a|..];
  }

  lemma LiteralsRead(z: seq<Byte>, ip: nat, x: seq<Byte>, lits: seq<Byte>, trail: Trail, cap: nat)
    requires ip <= |z| && lits <= z[ip..] && |z| > ip + |lits| && |x| + |lits| <= cap
    ensures Literals(z, ip, x, |lits|, trail, cap, true) == Instruction(z, ip + |lits|, x + lits, trail, cap, true)
  {
    assert z[ip..ip + |lits|] == z[ip..][..|lits|] == lits;
  }

  /** A literal run after a match. */
  lemma RunReaches(o: seq<Byte>, x: seq<Byte>, lits: seq<Byte>)
    requires Reaches(o, x, 0) && |lits| >= 4
    ensures Reaches(o + RunHeader(|lits|) + lits, x + lits, LITERAL_RUN)
  {
    var n := |lits|;
    var o' := o + RunHeader(n) + lits;
    forall z: seq<Byte>, cap: nat | o' <= z && |z| >= |o'| + 3 && |x + lits| <= cap
      ensures Decode(z, cap, true) == Instruction(z, |o'|, x + lits, LITERAL_RUN, cap, true)
    {
      RunReachesIn(o, x, lits, z, cap);
    }
  }

  lemma RunReachesIn(o: seq<Byte>, x: seq<Byte>, lits: seq<Byte>, z: seq<Byte>, cap: nat)
    requires Reaches(o, x, 0) && |lits| >= 4
    requires o + RunHeader(|lits|) + lits <= z && |z| >= |o + RunHeader(|lits|) + lits| + 3 && |x + lits| <= cap
    ensures Decode(z, cap, true) == Instruction(z, |o + RunHeader(|lits|) + lits|, x + lits, LITERAL_RUN, cap, true)
  {
    hide Instruction, Literals, Decode, RunHeader, Reaches;
    var h := RunHeader(|lits|);
    assert o + h + lits == o + (h + lits);
    Rest(z, o, h + lits);
    Rest(z[|o|..], h, lits);
    assert z[|o|..][|h|..] == z[|o| + |h|..];
    ReachesUse(o, x, 0, z, cap);
    RunRead(z, |o|, x, |lits|, cap);
    LiteralsRead(z, |o| + |h|, x, lits, LITERAL_RUN, cap);
  }

  /** The stream may begin with a literal run, with its own header or with a count. */
  lemma FirstRunReaches(lits: seq<Byte>)
    requires |lits| >= 4
    ensures Reaches(RunHeader(|lits|) + lits, lits, LITERAL_RUN)
  {
    hide RunHeader, Decode, Instruction;
    forall z: seq<Byte>, cap: nat | RunHeader(|lits|) + lits <= z && |z| >= |RunHeader(|lits|) + lits| + 3
      && |lits| <= cap
      ensures Decode(z, cap, true) == Instruction(z, |RunHeader(|lits|) + lits|, lits, LITERAL_RUN, cap, true)
    {
      FirstRunRead(z, lits, cap);
    }
  }

  lemma FirstRunRead(z: seq<Byte>, lits: seq<Byte>, cap: nat)
    requires |lits| >= 4 && RunHeader(|lits|) + lits <= z && |z| >= |RunHeader(|lits|) + lits| + 3 && |lits| <= cap
    ensures Decode(z, cap, true) == Instruction(z, |RunHeader(|lits|) + lits|, lits, LITERAL_RUN, cap, true)
  {
    hide Instruction, Literals, RunHeader;
    var h := RunHeader(|lits|);
    HeaderFirst(|lits|);
    assert z[0] == (h + lits)[0] == h[0];
    assert z[0..] == z;
    Rest(z, h, lits);
    RunRead(z, 0, [], |lits|, cap);
    LiteralsRead(z, |h|, [], lits, LITERAL_RUN, cap);
    assert [] + lits == lits;
  }

  lemma HeaderFirst(n: nat)
    requires n >= 4
    ensures |RunHeader(n)| > 0 && RunHeader(n)[0] <= 17
  {
  }

  lemma CountReaches(lits: seq<Byte>)
    requires 1 <= |lits| <= 238
    ensures Reaches([17 + |lits|] + lits, lits, if |lits| < 4 then |lits| else LITERAL_RUN)
  {
    var o := [17 + |lits|] + lits;
    var trail: Trail := if |lits| < 4 then |lits| else LITERAL_RUN;
    forall z: seq<Byte>, cap: nat | o <= z && |z| >= |o| + 3 && |lits| <= cap
      ensures Decode(z, cap, true) == Instruction(z, |o|, lits, trail, cap, true)
    {
      hide Instruction, Literals;
      assert z[0] == o[0] == 17 + |lits|;
      Rest(z, [17 + |lits|], lits);
      LiteralsRead(z, 1, [], lits, trail, cap);
      assert [] + lits == lits;
    }
  }

  /** A match instruction, near or far, with k literals announced in its low bits. */
  lemma MatchRead(z: seq<Byte>, ip: nat, x: seq<Byte>, dist: int, len: int, k: int, trail: Trail, cap: nat)
    requires ValidMatch(dist, len) && 0 <= k < 4
    requires MatchBytes(dist, len)[|MatchBytes(dist, len)| - 2] % 4 == 0
    requires ip <= |z| && Patched(MatchBytes(dist, len), k) <= z[ip..]
    ensures var end := ip + |MatchBytes(dist, len)|;
            && end <= |z| && z[end - 2] % 4 == k
            && Instruction(z, ip, x, trail, cap, true) == Match(z, end, x, dist, len, cap, true)
  {
    hide Match, Instruction, FarHeader, OffsetBytes;
    if dist <= M2_MAX_OFFSET && len <= M2_MAX_LEN {
      NearMatchRead(z, ip, x, dist, len, k, trail, cap);
    } else {
      FarMatchRead(z, ip, x, dist, len, k, trail, cap);
    }
  }

  /** One match with k literals after it. */
  lemma MatchReachesIn(o: seq<Byte>, x: seq<Byte>, trail: Trail, dist: int, len: int, lits: seq<Byte>, z: seq<Byte>,
                       cap: nat)
    requires Reaches(o, x, trail) && ValidMatch(dist, len) && dist <= |x| && |lits| <= 3
    requires MatchBytes(dist, len)[|MatchBytes(dist, len)| - 2] % 4 == 0
    requires var o' := o + Patched(MatchBytes(dist, len), |lits|) + lits;
             o' <= z && |z| >= |o'| + 3 && |x| + len + |lits| <= cap
    ensures Decode(z, cap, true)
         == Instruction(z, |o + Patched(MatchBytes(dist, len), |lits|) + lits|, CopyMatch(x, dist, len) + lits, |lits|,
                        cap, true)
  {
    hide Instruction, Literals, Decode, MatchBytes, Reaches;
    var m := Patched(MatchBytes(dist, len), |lits|);
    assert o + m + lits == o + (m + lits);
    Rest(z, o, m + lits);
    Rest(z[|o|..], m, lits);
    assert z[|o|..][|m|..] == z[|o| + |m|..];
    ReachesUse(o, x, trail, z, cap);
    MatchRead(z, |o|, x, dist, len, |lits|, trail, cap);
    var copied := CopyMatch(x, dist, len);
    if |lits| > 0 {
      LiteralsRead(z, |o| + |m|, copied, lits, |lits|, cap);
    } else {
      assert copied + lits == copied;
    }
  }

  lemma MatchReaches(o: seq<Byte>, x: seq<Byte>, trail: Trail, dist: int, len: int, lits: seq<Byte>)
    requires Reaches(o, x, trail) && ValidMatch(dist, len) && dist <= |x| && |lits| <= 3
    requires MatchBytes(dist, len)[|MatchBytes(dist, len)| - 2] % 4 == 0
    ensures Reaches(o + Patched(MatchBytes(dist, len), |lits|) + lits, CopyMatch(x, dist, len) + lits, |lits|)
  {
    hide MatchBytes;
    var o' := o + Patched(MatchBytes(dist, len), |lits|) + lits;
    forall z: seq<Byte>, cap: nat | o' <= z && |z| >= |o'| + 3 && |CopyMatch(x, dist, len) + lits| <= cap
      ensures Decode(z, cap, true) == Instruction(z, |o'|, CopyMatch(x, dist, len) + lits, |lits|, cap, true)
    {
      MatchReachesIn(o, x, trail, dist, len, lits, z, cap);
    }
  }

  /** After a match the stream is pending, and what was written has grown by the copy. */
  lemma MatchPending(o: seq<Byte>, x: seq<Byte>, trail: Trail, dist: int, len: int)
    requires Reaches(o, x, trail) && ValidMatch(dist, len) && dist <= |x|
    ensures Pending(o + MatchBytes(dist, len), CopyMatch(x, dist, len))
  {
    hide MatchBytes, Reaches, CopyMatch;
    MatchBytesFree(dist, len);
    var m, copied := MatchBytes(dist, len), CopyMatch(x, dist, len);
    var o' := o + m;
    assert o'[|o'| - 2] == m[|m| - 2];
    MatchReaches(o, x, trail, dist, len, []);
    assert Patched(m, 0) == m;
    assert o + m + [] == o' && copied + [] == copied;
    forall lits: seq<Byte> | 1 <= |lits| <= 3
      ensures Reaches(Patched(o', |lits|) + lits, copied + lits, |lits|)
    {
      MatchReaches(o, x, trail, dist, len, lits);
      assert Patched(o', |lits|) == o + Patched(m, |lits|);
    }
  }

  /** The end marker finishes the stream. */
  lemma EndReached(o: seq<Byte>, x: seq<Byte>, trail: Trail, cap: nat)
    requires Reaches(o, x, trail) && |x| <= cap
    ensures Decode(o + [M4_MARKER + 1, 0, 0], cap, true) == Outcome(Ok, x)
  {
    var z := o + [M4_MARKER + 1, 0, 0];
    hide Decode;
    ReachesUse(o, x, trail, z, cap);
    assert z[|o|] == 17 && z[|o| + 1] == 0 && z[|o| + 2] == 0;
    EndRead(z, |o|, x, trail, cap);
  }

  lemma EndRead(z: seq<Byte>, ip: nat, x: seq<Byte>, trail: Trail, cap: nat)
    requires |z| == ip + 3 && z[ip] == 17 && z[ip + 1] == 0 && z[ip + 2] == 0
    ensures Instruction(z, ip, x, trail, cap, true) == Outcome(Ok, x)
  {
    assert Far(z, ip + 1, x, 17, 1, cap, true) == Outcome(Ok, x);
    assert FarLength(z, ip + 1, x, 17, cap, true) == Outcome(Ok, x);
  }

  /** What a run of t literals costs beyond the literals, when it follows a match. */
  function RunCost(t: nat): nat {
    if t < 4 then 0 else |RunHeader(t)|
  }

  /** What a match takes: two bytes when it is near and short, and otherwise three and one more for
      every 255 bytes, or part of them, that its length is beyond 33, or 9 when it is far. */
  lemma MatchSizeIs(dist: int, len: int)
    requires ValidMatch(dist, len)
    ensures |MatchBytes(dist, len)| ==
      if dist <= 2048 && len <= 8 then 2
      else
        var most := if dist <= 16384 then 33 else 9;
        if len <= most then 3 else 3 + (len - most + 254) / 255
  {
    var most := if dist <= 16384 then 33 else 9;
    if len > most { LongBytesSize(len - most); }
  }

  /** What a run of literals costs after a match: nothing up to three, one byte up to 18, and then one
      more for every 255 of them or part. */
  lemma RunCostIs(t: nat)
    ensures RunCost(t) == if t <= 3 then 0 else if t <= 18 then 1 else 1 + (t - 18 + 254) / 255
  {
    if t > 18 { LongBytesSize(t - 18); }
  }

  /** Every match is at least one byte shorter than what it stands for, given that a far
      match has a fourth equal byte. */
  lemma MatchSaves(dist: int, len: int)
    requires ValidMatch(dist, len) && (dist <= M2_MAX_OFFSET || len >= 4)
    ensures |MatchBytes(dist, len)| <= len - 1
  {
    if dist <= M3_MAX_OFFSET {
      if len > 33 { LongBytesSize(len - 33); }
    } else {
      if len > 9 { LongBytesSize(len - 9); }
    }
  }

  lemma RunCostSmall(t: nat)
    ensures 16 * (RunCost(t) - 1) <= t
    ensures RunCost(t) <= 2 + t / 16
  {
    if t > 18 { LongBytesSize(t - 18); }
  }

  /** A match at distance dist whose bytes all agree continues the message. */
  lemma {:induction false} CopyContinues(input: seq<Byte>, ip: nat, dist: int, len: nat)
    requires 0 < dist <= ip && ip + len <= |input|
    requires forall j :: ip <= j < ip + len ==> input[j] == input[j - dist]
    ensures CopyMatch(input[..ip], dist, len) == input[..ip + len]
    decreases len
  {
    if len > 0 {
      assert input[..ip] + [input[ip - dist]] == input[..ip + 1];
      CopyContinues(input, ip + 1, dist, len - 1);
    }
  }
}
