/** _lzo1x_1_do_compress and lzo1x_1_compress (Externals/LZO/minilzo.c).  The dictionary is
    never initialised and only ever a hint: whatever it holds, the output decodes to the
    input and stays within its bound. */
module LzoCompress {
  import opened LzoFormat
  import opened LzoEncoding
  import LzoDecompress

  const D_SIZE := 0x4000

  /** D_INDEX1: the hash of the four bytes at p. */
  function Index1(a: Byte, b: Byte, c: Byte, d: Byte): (r: nat)
    ensures r < D_SIZE
  {
    var x := (((((((d as bv32) << 6) ^ (c as bv32)) << 5) ^ (b as bv32)) << 5) ^ (a as bv32));
    (((0x21 * x) >> 5) as int) % D_SIZE
  }

  /** D_INDEX2: the second probe. */
  function Index2(d: nat): (r: nat)
    requires d < D_SIZE
    ensures r < D_SIZE
  {
    (((d as bv32) & 0x7ff) ^ 0x201f) as int % D_SIZE
  }

  /** The hash without its nesting: 33 times the xor of the four bytes, five bits apart and the last two
      six, and of that fourteen bits from the sixth. */
  lemma HashIs(a: Byte, b: Byte, c: Byte, d: Byte)
    ensures var x := (a as bv32) ^ ((b as bv32) << 5) ^ ((c as bv32) << 10) ^ ((d as bv32) << 16);
      Index1(a, b, c, d) == (33 * x / 32) as int % 16384
  {
    Unnested(a as bv32, b as bv32, c as bv32, d as bv32);
  }

  lemma Unnested(a: bv32, b: bv32, c: bv32, d: bv32)
    ensures (((((((d << 6) ^ c) << 5) ^ b) << 5) ^ a)) == a ^ (b << 5) ^ (c << 10) ^ (d << 16)
    ensures var x := a ^ (b << 5) ^ (c << 10) ^ (d << 16); (0x21 * x) >> 5 == 33 * x / 32
  {
  }

  /** The second slot differs from the first in its low five bits, all turned round, and in the top ones,
      which become 100. */
  lemma SecondSlotIs(d: nat)
    requires d < D_SIZE
    ensures var x := d as bv32; Index2(d) == (0x2000 + x % 0x800 / 32 * 32 + (31 - x % 32)) as int % 16384
  {
    Turned(d as bv32);
  }

  lemma Turned(x: bv32)
    ensures (x & 0x7ff) ^ 0x201f == 0x2000 + x % 0x800 / 32 * 32 + (31 - x % 32)
  {
  }

  /** LZO_CHECK_MPOS_NON_DET: whether a dictionary entry is a place to look at. */
  predicate Usable(entry: int, ip: nat) {
    0 <= entry < ip && ip - entry <= M4_MAX_OFFSET
  }

  /** Three equal bytes, and a fourth when the place is far. */
  predicate Candidate(input: seq<Byte>, m: int, ip: nat) {
    && ip + 4 <= |input| && Usable(m, ip)
    && input[m] == input[ip] && input[m + 1] == input[ip + 1] && input[m + 2] == input[ip + 2]
    && (ip - m <= M2_MAX_OFFSET || input[m + 3] == input[ip + 3])
  }

  /** The slot probed last: the second one when the first holds a far place whose fourth byte differs. */
  function Slot(input: seq<Byte>, ip: nat, dict: seq<int>): (slot: nat)
    requires ip + 4 <= |input| && |dict| == D_SIZE
    ensures slot < D_SIZE
  {
    var first := Index1(input[ip], input[ip + 1], input[ip + 2], input[ip + 3]);
    var m := dict[first];
    if 0 <= m && 0x800 < ip - m <= 0xbfff && input[m + 3] != input[ip + 3] then Index2(first) else first
  }

  /** The two probes and the comparison at try_match: the place in the slot probed last is a match
      exactly when it is a candidate; that slot takes ip and no other changes. */
  method FindMatch(input: seq<Byte>, ip: nat, dict: array<int>) returns (found: bool, m: int)
    requires ip + 4 <= |input| && dict.Length == D_SIZE
    modifies dict
    ensures var slot := Slot(input, ip, old(dict[..]));
      m == old(dict[..])[slot] && found == Candidate(input, m, ip) && dict[..] == old(dict[..])[slot := ip]
  {
    var index := Index1(input[ip], input[ip + 1], input[ip + 2], input[ip + 3]);
    found, m := false, dict[index];
    if Usable(m, ip) {
      var try := ip - m <= M2_MAX_OFFSET || input[m + 3] == input[ip + 3];
      if !try {
        index := Index2(index);
        m := dict[index];
        try := Usable(m, ip) && (ip - m <= M2_MAX_OFFSET || input[m + 3] == input[ip + 3]);
      }
      found := try && input[m] == input[ip] && input[m + 1] == input[ip + 1] && input[m + 2] == input[ip + 2];
    }
    dict[index] := ip;
  }

  /** The length of the match: six comparisons unrolled, then a loop to the end. */
  method MatchLength(input: seq<Byte>, ip: nat, m: int) returns (len: nat)
    requires Candidate(input, m, ip) && ip + M2_MAX_LEN < |input|
    ensures 3 <= len && ip + len <= |input|
    ensures forall j :: ip <= j < ip + len ==> input[j] == input[j - (ip - m)]
    ensures ip + len == |input| || input[m + len] != input[ip + len]
    ensures ip - m > M2_MAX_OFFSET ==> len >= 4
  {
    len := 3;
    while len <= M2_MAX_LEN && input[m + len] == input[ip + len]
      invariant 3 <= len <= M2_MAX_LEN + 1
      invariant forall j :: ip <= j < ip + len ==> input[j] == input[j - (ip - m)]
      invariant len == 3 || input[m + 3] == input[ip + 3]
    {
      len := len + 1;
    }
    if len > M2_MAX_LEN {
      while ip + len < |input| && input[m + len] == input[ip + len]
        invariant 4 <= len && ip + len <= |input|
        invariant forall j :: ip <= j < ip + len ==> input[j] == input[j - (ip - m)]
      {
        len := len + 1;
      }
    }
  }

  method Put(out: array<Byte>, op: nat, b: Byte) returns (next: nat)
    requires op < out.Length
    modifies out
    ensures next == op + 1 && out[..next] == old(out[..op]) + [b]
  {
    out[op] := b;
    assert out[..op] == old(out[..op]);
    next := op + 1;
  }

  /** The bytes of a long length. */
  method PutLong(out: array<Byte>, op: nat, t: nat) returns (next: nat)
    requires t > 0 && op + |LongBytes(t)| <= out.Length
    modifies out
    ensures next == op + |LongBytes(t)| && out[..next] == old(out[..op]) + LongBytes(t)
  {
    ghost var goal := out[..op] + LongBytes(t);
    var left: nat := t;
    next := op;
    while left > 255
      invariant left > 0 && next <= out.Length && next + |LongBytes(left)| == op + |LongBytes(t)|
      invariant out[..next] + LongBytes(left) == goal
    {
      ghost var rest := LongBytes(left - 255);
      ghost var before := out[..next];
      next := Put(out, next, 0);
      assert before + ([0] + rest) == (before + [0]) + rest;
      left := left - 255;
    }
    next := Put(out, next, left);
  }

  /** The literals themselves. */
  method PutLiterals(out: array<Byte>, op: nat, input: seq<Byte>, ii: nat, t: nat) returns (next: nat)
    requires ii + t <= |input| && op + t <= out.Length
    modifies out
    ensures next == op + t && out[..next] == old(out[..op]) + input[ii..ii + t]
  {
    ghost var o := out[..op];
    next := op;
    while next < op + t
      invariant op <= next <= op + t
      invariant out[..next] == o + input[ii..ii + (next - op)]
    {
      assert input[ii..ii + (next - op) + 1] == input[ii..ii + (next - op)] + [input[ii + (next - op)]];
      next := Put(out, next, input[ii + (next - op)]);
    }
  }

  /** The header of a run of at least four literals. */
  method PutHeader(out: array<Byte>, op: nat, t: nat) returns (next: nat)
    requires t >= 4 && op + |RunHeader(t)| <= out.Length
    modifies out
    ensures next == op + |RunHeader(t)| && out[..next] == old(out[..op]) + RunHeader(t)
  {
    if t <= 18 {
      next := Put(out, op, t - 3);
    } else {
      ghost var o := out[..op];
      next := Put(out, op, 0);
      next := PutLong(out, next, t - 18);
      assert o + [0] + LongBytes(t - 18) == o + RunHeader(t);
    }
  }

  method PutOffset(out: array<Byte>, op: nat, offset: nat) returns (next: nat)
    requires op + 2 <= out.Length
    modifies out
    ensures next == op + 2 && out[..next] == old(out[..op]) + OffsetBytes(offset)
  {
    next := Put(out, op, (offset % 64) * 4);
    next := Put(out, next, (offset / 64) % 256);
  }

  method PutFar(out: array<Byte>, op: nat, marker: Byte, len: nat, max: nat) returns (next: nat)
    requires 2 < len && max <= 33 && marker + max - 2 < 256
    requires op + |FarHeader(marker, len, max)| <= out.Length
    modifies out
    ensures next == op + |FarHeader(marker, len, max)| && out[..next] == old(out[..op]) + FarHeader(marker, len, max)
  {
    hide LongBytes;
    if len <= max {
      next := Put(out, op, marker + len - 2);
    } else {
      ghost var o := out[..op];
      next := Put(out, op, marker);
      next := PutLong(out, next, len - max);
      assert o + [marker] + LongBytes(len - max) == o + FarHeader(marker, len, max);
    }
  }

  /** The instruction of a match. */
  method PutMatch(out: array<Byte>, op: nat, dist: int, len: nat) returns (next: nat)
    requires ValidMatch(dist, len) && op + |MatchBytes(dist, len)| <= out.Length
    modifies out
    ensures next == op + |MatchBytes(dist, len)| && out[..next] == old(out[..op]) + MatchBytes(dist, len)
  {
    if dist <= M2_MAX_OFFSET && len <= M2_MAX_LEN {
      next := Put(out, op, (len - 1) * 32 + ((dist - 1) % 8) * 4);
      next := Put(out, next, (dist - 1) / 8);
    } else if dist <= M3_MAX_OFFSET {
      next := PutFar(out, op, M3_MARKER, len, 33);
      next := PutOffset(out, next, dist - 1);
    } else {
      next := PutFar(out, op, M4_MARKER + ((dist - 0x4000) / 0x4000) * 8, len, 9);
      next := PutOffset(out, next, dist - 0x4000);
    }
  }

  /** op bytes have been written for the first ii bytes of the input. */
  ghost predicate Written(out: seq<Byte>, input: seq<Byte>, op: nat, ii: nat) {
    && op <= |out| && ii <= |input|
    && (if op == 0 then ii == 0 else Pending(out[..op], input[..ii]))
    && 16 * (op - ii) <= ii
  }

  /** The t literals before a match: in the low bits of the match before, or as a run. */
  method PutRun(out: array<Byte>, op: nat, input: seq<Byte>, ii: nat, t: nat) returns (next: nat, ghost trail: Trail)
    requires Written(out[..], input, op, ii) && ii + t <= |input| && (op == 0 ==> t >= 4)
    requires op + RunCost(t) + t <= out.Length
    modifies out
    ensures next == op + RunCost(t) + t
    ensures Reaches(out[..next], input[..ii + t], trail)
  {
    hide Reaches, Pending, RunHeader;
    ghost var o, x, lits := out[..op], input[..ii], input[ii..ii + t];
    assert out[..][..op] == o;
    assert x + lits == input[..ii + t];
    next, trail := op, 0;
    if t == 0 {
      PendingUse(o, x, []);
      return;
    }
    if t <= 3 {
      PendingUse(o, x, lits);
      out[op - 2] := out[op - 2] + t;
      assert out[..op] == Patched(o, t);
      trail := t;
    } else {
      next := PutHeader(out, op, t);
      trail := LITERAL_RUN;
      if op == 0 {
        FirstRunReaches(lits);
        assert o + RunHeader(t) + lits == RunHeader(t) + lits && x + lits == lits;
      } else {
        PendingUse(o, x, []);
        RunReaches(o, x, lits);
      }
    }
    next := PutLiterals(out, next, input, ii, t);
  }

  lemma PendingUse(o: seq<Byte>, x: seq<Byte>, lits: seq<Byte>)
    requires Pending(o, x) && |lits| <= 3
    ensures |o| >= 2 && o[|o| - 2] % 4 == 0
    ensures Reaches(o, x, 0)
    ensures lits != [] ==> Reaches(Patched(o, |lits|) + lits, x + lits, |lits|)
  {
    hide Reaches;
  }

  /** What one run and one match cost together keeps within a sixteenth of the input. */
  lemma StepCost(op: nat, ii: nat, t: nat, dist: int, len: nat)
    requires ValidMatch(dist, len) && (dist <= M2_MAX_OFFSET || len >= 4) && 16 * (op - ii) <= ii
    ensures 16 * (op + RunCost(t) + t + |MatchBytes(dist, len)| - (ii + t + len)) <= ii + t + len
  {
    MatchSaves(dist, len);
    RunCostSmall(t);
  }

  /** A match found at ip: the literals since ii, then the match. */
  method PutStep(out: array<Byte>, op: nat, input: seq<Byte>, ii: nat, ip: nat, m: int, len: nat) returns (next: nat)
    requires Written(out[..], input, op, ii) && ii <= ip && (op == 0 ==> ip >= 4)
    requires Usable(m, ip) && 3 <= len && ip + len <= |input| && (ip - m > M2_MAX_OFFSET ==> len >= 4)
    requires forall j :: ip <= j < ip + len ==> input[j] == input[j - (ip - m)]
    requires out.Length >= |input| + |input| / 16
    modifies out
    ensures next > 0 && Written(out[..], input, next, ip + len)
    ensures next == op + RunCost(ip - ii) + (ip - ii) + |MatchBytes(ip - m, len)|
  {
    hide Reaches, Pending, RunCost, MatchBytes;
    StepCost(op, ii, ip - ii, ip - m, len);
    ghost var trail;
    next, trail := PutRun(out, op, input, ii, ip - ii);
    ghost var o := out[..next];
    next := PutMatch(out, next, ip - m, len);
    MatchPending(o, input[..ip], trail, ip - m, len);
    CopyContinues(input, ip, ip - m, len);
    assert out[..][..next] == out[..next];
  }

  lemma CandidateUsable(input: seq<Byte>, m: int, ip: nat)
    requires Candidate(input, m, ip)
    ensures Usable(m, ip)
  {
  }

  /** All bytes are the same. */
  ghost predicate Constant(input: seq<Byte>) {
    forall i :: 0 <= i < |input| ==> input[i] == input[0]
  }

  /** Four or five literals and a match to the end of at least nine bytes. */
  lemma ConstantCost(n: nat, k: nat, dist: int)
    requires 4 <= k <= 5 && n - k >= 9 && 0 < dist <= 5
    ensures RunCost(k) + k + |MatchBytes(dist, n - k)| <= n / 255 + 10
  {
    hide LongBytes;
    if n - k > 33 { LongBytesSize(n - k - 33); }
  }

  /** Four equal bytes at ip: any place before it that is usable is a candidate, and the second slot is
      not looked at. */
  lemma ConstantSlot(input: seq<Byte>, ip: nat, dict: seq<int>)
    requires Constant(input) && ip + 4 <= |input| && |dict| == D_SIZE
    ensures Slot(input, ip, dict) == Index1(input[0], input[0], input[0], input[0])
    ensures forall m :: Candidate(input, m, ip) <==> Usable(m, ip)
  {
    hide Index1, Index2;
  }

  /** Whether the dictionary has a place to look at when the loop begins. */
  ghost predicate FirstPlace(input: seq<Byte>, dict: seq<int>)
    requires |input| > 0 && |dict| == D_SIZE
  {
    Usable(dict[Index1(input[0], input[0], input[0], input[0])], 4)
  }

  /** The match goes on to the end. */
  lemma ConstantLength(input: seq<Byte>, ip: nat, m: int, len: nat)
    requires Constant(input) && 0 <= m < ip && ip + len <= |input|
    requires ip + len == |input| || input[m + len] != input[ip + len]
    ensures ip + len == |input|
  {
  }

  /** The loop on equal bytes: at its first turn, or at its second with the first place remembered. */
  ghost predicate ConstantTurn(input: seq<Byte>, dict0: seq<int>, dict: seq<int>, op: nat, ii: nat, ip: nat)
    requires |input| > 0 && |dict0| == |dict| == D_SIZE
  {
    && op == 0 == ii
    && if ip == 4 then dict == dict0
       else ip == 5 && dict[Index1(input[0], input[0], input[0], input[0])] == 4 && !FirstPlace(input, dict0)
  }

  /** One turn of the loop: the place looked at from ip, and the length of the match taken, or 0. */
  datatype Turn = Turn(ip: nat, m: int, len: nat)

  /** A turn takes a match exactly when the place in the slot is a candidate, and then the longest one;
      the slot remembers ip. */
  ghost predicate TurnOk(input: seq<Byte>, dict: seq<int>, after: seq<int>, t: Turn) {
    && t.ip + 4 <= |input| && |dict| == D_SIZE
    && var slot := Slot(input, t.ip, dict);
      && t.m == dict[slot] && after == dict[slot := t.ip] && (t.len > 0 <==> Candidate(input, t.m, t.ip))
      && (t.len > 0 ==>
            && t.len >= 3 && t.ip + t.len <= |input|
            && (forall j :: t.ip <= j < t.ip + t.len ==> input[j] == input[j - (t.ip - t.m)])
            && (t.ip + t.len == |input| || input[t.m + t.len] != input[t.ip + t.len]))
  }

  /** The turns begin at 4, each goes on where the one before ended, and ip is where the next begins. */
  ghost predicate Turns(input: seq<Byte>, dicts: seq<seq<int>>, turns: seq<Turn>, ip: nat) {
    && |dicts| == |turns| + 1
    && (forall k :: 0 <= k < |turns| ==> TurnOk(input, dicts[k], dicts[k + 1], turns[k]))
    && (forall k :: 0 <= k < |turns| ==> turns[k].ip == Begins(turns, k))
    && ip == Begins(turns, |turns|)
  }

  /** Where turn k begins. */
  function Begins(turns: seq<Turn>, k: nat): nat
    requires k <= |turns|
  {
    if k == 0 then 4 else TurnEnd(turns[k - 1])
  }

  function TurnEnd(t: Turn): nat {
    if t.len > 0 then t.ip + t.len else t.ip + 1
  }

  /** What the matches of the turns cost with the literals before each, and where the last one ended. */
  ghost function Cost(turns: seq<Turn>): (r: (nat, nat)) {
    if turns == [] then (0, 0) else
      var t, before := turns[|turns| - 1], Cost(turns[..|turns| - 1]);
      if t.len == 0 then before
      else if before.1 <= t.ip && ValidMatch(t.ip - t.m, t.len) then
        (before.0 + RunCost(t.ip - before.1) + (t.ip - before.1) + |MatchBytes(t.ip - t.m, t.len)|, t.ip + t.len)
      else before
  }

  /** The turns are those of the loop, from this dictionary up to thirteen bytes before the end. */
  ghost predicate Followed(input: seq<Byte>, dict: seq<int>, turns: seq<Turn>) {
    exists dicts: seq<seq<int>>, ip: nat ::
      Turns(input, dicts, turns, ip) && dicts[0] == dict && turns != [] && ip + 13 >= |input|
      && forall k :: 0 <= k < |turns| - 1 ==> TurnEnd(turns[k]) + 13 < |input|
  }

  lemma NoTurn(input: seq<Byte>, dict: seq<int>)
    ensures Turns(input, [dict], [], 4) && Cost([]) == (0, 0)
  {
  }

  lemma TurnIs(input: seq<Byte>, dict: seq<int>, after: seq<int>, ip: nat, m: int, len: nat)
    requires ip + 4 <= |input| && |dict| == D_SIZE
    requires m == dict[Slot(input, ip, dict)] && after == dict[Slot(input, ip, dict) := ip]
    requires len > 0 <==> Candidate(input, m, ip)
    requires len > 0 ==> len >= 3 && ip + len <= |input| && (ip + len == |input| || input[m + len] != input[ip + len])
    requires len > 0 ==> forall j :: ip <= j < ip + len ==> input[j] == input[j - (ip - m)]
    ensures TurnOk(input, dict, after, Turn(ip, m, len))
  {
  }

  lemma OneTurn(input: seq<Byte>, dicts: seq<seq<int>>, turns: seq<Turn>, after: seq<int>, t: Turn)
    requires Turns(input, dicts, turns, t.ip) && |dicts| == |turns| + 1 && TurnOk(input, dicts[|turns|], after, t)
    ensures Turns(input, dicts + [after], turns + [t], TurnEnd(t))
  {
    hide TurnOk, TurnEnd, Begins;
    var ts, ds := turns + [t], dicts + [after];
    forall k | 0 <= k < |ts|
      ensures TurnOk(input, ds[k], ds[k + 1], ts[k]) && ts[k].ip == Begins(ts, k)
    {
      BeginsAlike(turns, t, k);
      if k < |turns| {
        assert ts[k] == turns[k] && ds[k] == dicts[k] && ds[k + 1] == dicts[k + 1];
      } else {
        assert ts[k] == t && ds[k] == dicts[k] && ds[k + 1] == after;
      }
    }
    BeginsLast(turns, t);
  }

  lemma BeginsAlike(turns: seq<Turn>, t: Turn, k: nat)
    requires k <= |turns|
    ensures Begins(turns + [t], k) == Begins(turns, k)
  {
  }

  lemma BeginsLast(turns: seq<Turn>, t: Turn)
    ensures Begins(turns + [t], |turns| + 1) == TurnEnd(t)
  {
  }

  lemma OneCost(turns: seq<Turn>, t: Turn)
    ensures t.len == 0 ==> Cost(turns + [t]) == Cost(turns)
    ensures t.len > 0 && Cost(turns).1 <= t.ip && ValidMatch(t.ip - t.m, t.len) ==>
      Cost(turns + [t]) == (Cost(turns).0 + RunCost(t.ip - Cost(turns).1) + (t.ip - Cost(turns).1)
                            + |MatchBytes(t.ip - t.m, t.len)|, t.ip + t.len)
  {
    hide RunCost, MatchBytes;
    assert (turns + [t])[..|turns|] == turns;
  }

  /** _lzo1x_1_do_compress: the matches it finds, and where the last one ended. */
  method DoCompress(input: seq<Byte>, out: array<Byte>, dict: array<int>)
    returns (op: nat, ii: nat, ghost turns: seq<Turn>)
    requires |input| > M2_MAX_LEN + 5 && dict.Length == D_SIZE && out.Length >= |input| + |input| / 16
    modifies out, dict
    ensures Written(out[..], input, op, ii)
    ensures Followed(input, old(dict[..]), turns) && (op, ii) == Cost(turns)
    ensures Constant(input) ==>
      if |input| <= 18 && !FirstPlace(input, old(dict[..])) then op == 0 == ii
      else ii == |input| && 0 < op <= |input| / 255 + 10
  {
    hide Reaches, Pending, Constant, Index1, MatchBytes, RunCost, Candidate, Cost, Turns, Slot, TurnOk;
    op, ii, turns := 0, 0, [];
    var ip := 4;
    ghost var dicts := [dict[..]];
    NoTurn(input, dict[..]);
    while true
      invariant ii <= ip && ip + 10 <= |input| && (op == 0 ==> ip >= 4) && (ip == 4 || ip + 13 < |input|)
      invariant Written(out[..], input, op, ii)
      invariant |dicts| == |turns| + 1 && Turns(input, dicts, turns, ip)
      invariant dicts[0] == old(dict[..]) && dicts[|turns|] == dict[..]
      invariant (op, ii) == Cost(turns) && forall k :: 0 <= k < |turns| ==> TurnEnd(turns[k]) + 13 < |input|
      invariant Constant(input) ==> ConstantTurn(input, old(dict[..]), dict[..], op, ii, ip)
      decreases |input| - ip
    {
      if Constant(input) { ConstantSlot(input, ip, dict[..]); }
      var found, m := FindMatch(input, ip, dict);
      if found {
        CandidateUsable(input, m, ip);
        var len := MatchLength(input, ip, m);
        if Constant(input) {
          assert ip == 4 ==> FirstPlace(input, old(dict[..]));
          ConstantLength(input, ip, m, len);
          ConstantCost(|input|, ip, ip - m);
        }
        TurnIs(input, dicts[|turns|], dict[..], ip, m, len);
        OneTurn(input, dicts, turns, dict[..], Turn(ip, m, len));
        OneCost(turns, Turn(ip, m, len));
        turns, dicts := turns + [Turn(ip, m, len)], dicts + [dict[..]];
        op := PutStep(out, op, input, ii, ip, m, len);
        ip := ip + len;
        ii := ip;
      } else {
        TurnIs(input, dicts[|turns|], dict[..], ip, m, 0);
        OneTurn(input, dicts, turns, dict[..], Turn(ip, m, 0));
        OneCost(turns, Turn(ip, m, 0));
        turns, dicts := turns + [Turn(ip, m, 0)], dicts + [dict[..]];
        ip := ip + 1;
      }
      if ip >= |input| - M2_MAX_LEN - 5 {
        break;
      }
    }
  }

  /** The end marker. */
  method PutEnd(out: array<Byte>, op: nat, ghost input: seq<Byte>, ghost trail: Trail) returns (n: nat)
    requires op + 3 <= out.Length && (if op == 0 then input == [] else Reaches(out[..op], input, trail))
    modifies out
    ensures n == op + 3
    ensures forall cap: nat :: cap >= |input| ==> Decode(out[..n], cap, true) == Outcome(Ok, input)
  {
    hide Reaches, Decode;
    ghost var o := out[..op];
    n := Put(out, op, M4_MARKER + 1);
    n := Put(out, n, 0);
    n := Put(out, n, 0);
    assert out[..n] == o + [M4_MARKER + 1, 0, 0];
    forall cap: nat | cap >= |input|
      ensures Decode(out[..n], cap, true) == Outcome(Ok, input)
    {
      if o == [] {
        EmptyStream(cap);
        assert out[..n] == [M4_MARKER + 1, 0, 0];
      } else {
        EndReached(o, input, trail, cap);
      }
    }
  }

  /** lzo1x_1_compress: the output decodes to the input whenever there is room for it, and
      is at most a sixteenth and 67 bytes longer. */
  method Compress(input: seq<Byte>, out: array<Byte>, dict: array<int>) returns (n: nat, ghost turns: seq<Turn>)
    requires dict.Length == D_SIZE && out.Length >= |input| + |input| / 16 + 67
    modifies out, dict
    ensures n <= |input| + |input| / 16 + 67
    ensures forall cap: nat :: cap >= |input| ==> Decode(out[..n], cap, true) == Outcome(Ok, input)
    ensures |input| > 13 ==> Followed(input, old(dict[..]), turns)
    ensures var (op, ii) := if |input| > 13 then Cost(turns) else (0, 0);
      && ii <= |input|
      && var t := |input| - ii; n == op + t + 3 + if op == 0 && 0 < t <= 238 then 1 else RunCost(t)
    ensures Constant(input) && |input| > 13 ==>
      if |input| <= 18 && !FirstPlace(input, old(dict[..])) then n == |input| + 4 else n <= |input| / 255 + 13
  {
    hide Reaches, Pending, Decode, RunHeader, Cost, Followed, Constant, FirstPlace;
    var op: nat, ii: nat := 0, 0;
    turns := [];
    if |input| > M2_MAX_LEN + 5 {
      op, ii, turns := DoCompress(input, out, dict);
    }
    var t := |input| - ii;
    ghost var trail: Trail := 0;
    RunCostSmall(t);
    if op == 0 && 0 < t <= 238 {
      n := Put(out, 0, 17 + t);
      n := PutLiterals(out, n, input, ii, t);
      CountReaches(input);
      trail := if t < 4 then t else LITERAL_RUN;
      assert out[..n] == [17 + t] + input;
    } else if t > 0 || op > 0 {
      n, trail := PutRun(out, op, input, ii, t);
      assert input[..ii + t] == input;
    } else {
      n := 0;
    }
    n := PutEnd(out, n, input, trail);
  }

  lemma EmptyStream(cap: nat)
    ensures Decode([M4_MARKER + 1, 0, 0], cap, true) == Outcome(Ok, [])
  {
    EndRead([M4_MARKER + 1, 0, 0], 0, [], 0, cap);
  }

  /** The round trip, through the checked or the unchecked decompressor. */
  method RoundTrip(input: seq<Byte>, packed: array<Byte>, dict: array<int>, unpacked: array<Byte>, safe: bool)
    returns (code: Code, r: nat)
    requires dict.Length == D_SIZE && packed.Length >= |input| + |input| / 16 + 67 && unpacked.Length >= |input|
    requires packed != unpacked
    modifies packed, dict, unpacked
    ensures code == Ok && r == |input| && unpacked[..r] == input
  {
    hide Decode;
    var n, turns := Compress(input, packed, dict);
    ghost var z := packed[..n];
    DecodeUnchecked(z, unpacked.Length);
    code, r := LzoDecompress.Decompress(packed[..n], unpacked, safe);
  }
}
