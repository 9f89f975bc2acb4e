/** lzo1x_decompress_safe and lzo1x_decompress (Externals/LZO/minilzo.c).  The parser jumps
    between five labels; every jump keeps the outcome that LzoFormat gives the stream. */
module LzoDecompress {
  import opened LzoFormat
  import opened LzoCopy

  /** Where the next jump leads: the head of the outer loop, first_literal_run, match,
      match_done, match_next, or the return. */
  datatype Label = Head | FirstLiteralRun | MatchTop | MatchDone | MatchNext | Return(code: Code)

  /** The registers ip, op and t, and the label control is about to reach. */
  datatype Point = Point(at: Label, ip: nat, op: nat, t: nat)

  ghost predicate ValidPoint(input: seq<Byte>, cap: nat, p: Point, trail: Trail) {
    && p.ip <= |input| && p.op <= cap
    && (p.at.MatchTop? ==> p.ip >= 1 && p.t < 256 && trail < LITERAL_RUN && (p.t >= 16 || trail > 0))
    && (p.at.MatchDone? ==> p.ip >= 2)
    && (p.at.MatchNext? ==> 1 <= p.t <= 3)
  }

  /** What the checked decompressor returns from a point with o written so far; trail is
      what an instruction byte below 16 at `match` follows. */
  ghost function Resume(input: seq<Byte>, cap: nat, p: Point, trail: Trail, o: seq<Byte>): Outcome
    requires ValidPoint(input, cap, p, trail)
  {
    match p.at
    case Head => Instruction(input, p.ip, o, 0, cap, true)
    case FirstLiteralRun => Instruction(input, p.ip, o, LITERAL_RUN, cap, true)
    case MatchTop => MatchInstruction(input, p.ip, o, p.t, trail, cap, true)
    case MatchDone =>
      if input[p.ip - 2] % 4 == 0 then Instruction(input, p.ip, o, 0, cap, true)
      else Literals(input, p.ip, o, input[p.ip - 2] % 4, input[p.ip - 2] % 4, cap, true)
    case MatchNext => Literals(input, p.ip, o, p.t, p.t, cap, true)
    case Return(code) => Outcome(code, o)
  }

  /** The progress of the parser: input consumed, then the order of the labels. */
  function Rank(l: Label): nat {
    match l
    case MatchTop => 1
    case MatchDone => 4
    case MatchNext => 2
    case Head => 3
    case FirstLiteralRun => 2
    case Return(_) => 0
  }

  /** The bytes after a zero length field: the length, or the code it fails with. */
  method ReadLength(input: seq<Byte>, ip: nat, base: nat, safe: bool) returns (ok: bool, t: nat, next: nat)
    requires ip <= |input|
    requires safe || ip + Zeros(input, ip) < |input|
    ensures ok == (ip + Zeros(input, ip) < |input|)
    ensures ok ==> t == LongLength(input, ip, base) && next == ip + Zeros(input, ip) + 1
  {
    t, next, ok := 0, ip, true;
    ghost var z := 0;
    while true
      invariant ip <= next <= |input| && next == ip + z && t == 255 * z
      invariant Zeros(input, ip) == z + Zeros(input, next)
      invariant safe || ip + Zeros(input, ip) < |input|
      decreases |input| - next
    {
      if safe && |input| - next < 1 {
        return false, t, next;
      }
      if input[next] != 0 {
        break;
      }
      t, next, z := t + 255, next + 1, z + 1;
    }
    t, next := t + base + input[next], next + 1;
  }

  /** From the head of the outer loop: the end of the input, a match, or a literal run. */
  method AtHead(input: seq<Byte>, out: array<Byte>, p: Point, safe: bool) returns (q: Point)
    requires p.at == Head && ValidPoint(input, out.Length, p, 0)
    requires safe || Marked(Resume(input, out.Length, p, 0, out[..p.op]))
    modifies out
    ensures ValidPoint(input, out.Length, q, 0)
    ensures Resume(input, out.Length, q, 0, out[..q.op]) == old(Resume(input, out.Length, p, 0, out[..p.op]))
    ensures q.ip > p.ip || (q.ip == p.ip && q.at.Return?)
  {
    if safe && p.ip >= |input| {
      return p.(at := Return(EofNotFound));
    }
    var t: nat, ip: nat := input[p.ip], p.ip + 1;
    if t >= 16 {
      return p.(at := MatchTop, ip := ip, t := t);
    }
    if t == 0 {
      var ok;
      ok, t, ip := ReadLength(input, ip, 15, safe);
      if !ok {
        return p.(at := Return(InputOverrun));
      }
    }
    assert Resume(input, out.Length, p, 0, out[..p.op])
      == Literals(input, ip, out[..p.op], t + 3, LITERAL_RUN, out.Length, true);
    q := TakeRun(input, out, p.(ip := ip), t, safe);
  }

  /** A literal run of t + 3 bytes. */
  method TakeRun(input: seq<Byte>, out: array<Byte>, p: Point, t: nat, safe: bool) returns (q: Point)
    requires p.ip <= |input| && p.op <= out.Length && t > 0
    requires safe || Marked(Literals(input, p.ip, out[..p.op], t + 3, LITERAL_RUN, out.Length, true))
    modifies out
    ensures ValidPoint(input, out.Length, q, 0) && !q.at.MatchTop? && q.ip >= p.ip
    ensures Resume(input, out.Length, q, 0, out[..q.op])
      == old(Literals(input, p.ip, out[..p.op], t + 3, LITERAL_RUN, out.Length, true))
  {
    if safe && out.Length - p.op < t + 3 {
      return p.(at := Return(OutputOverrun));
    }
    if safe && |input| - p.ip < t + 4 {
      return p.(at := Return(InputOverrun));
    }
    CopyRun(input, p.ip, out, p.op, t);
    q := Point(FirstLiteralRun, p.ip + t + 3, p.op + t + 3, 0);
  }

  /** From first_literal_run: a match, or the three bytes of an M1 match after a run. */
  method AtFirstLiteralRun(input: seq<Byte>, out: array<Byte>, p: Point, safe: bool) returns (q: Point)
    requires p.at == FirstLiteralRun && ValidPoint(input, out.Length, p, 0)
    requires safe || Marked(Resume(input, out.Length, p, 0, out[..p.op]))
    modifies out
    ensures ValidPoint(input, out.Length, q, 0)
    ensures Resume(input, out.Length, q, 0, out[..q.op]) == old(Resume(input, out.Length, p, 0, out[..p.op]))
    ensures q.ip > p.ip || (q.ip == p.ip && q.at.Return?)
  {
    if p.ip >= |input| {
      return p.(at := Return(Undefined));
    }
    var t: nat, ip: nat := input[p.ip], p.ip + 1;
    assert Resume(input, out.Length, p, 0, out[..p.op])
      == MatchInstruction(input, ip, out[..p.op], t, LITERAL_RUN, out.Length, true);
    if t >= 16 {
      assert MatchInstruction(input, ip, out[..p.op], t, LITERAL_RUN, out.Length, true)
          == MatchInstruction(input, ip, out[..p.op], t, 0, out.Length, true);
      return p.(at := MatchTop, ip := ip, t := t);
    }
    if ip >= |input| {
      return p.(at := Return(Undefined));
    }
    var dist := 1 + M2_MAX_OFFSET + t / 4 + (input[ip] as int) * 4;
    q := TakeMatch(input, out, p.(ip := ip + 1), dist, 1, false, safe);
  }

  /** TEST_LB, NEED_OP and the copy of a match, up to match_done. */
  method TakeMatch(input: seq<Byte>, out: array<Byte>, p: Point, dist: nat, t: nat, chunks: bool, safe: bool)
    returns (q: Point)
    requires 2 <= p.ip <= |input| && p.op <= out.Length && dist > 0
    requires safe || Marked(Match(input, p.ip, out[..p.op], dist, t + 2, out.Length, true))
    modifies out
    ensures ValidPoint(input, out.Length, q, 0) && q.ip == p.ip && (q.at.MatchDone? || q.at.Return?)
    ensures Resume(input, out.Length, q, 0, out[..q.op])
      == old(Match(input, p.ip, out[..p.op], dist, t + 2, out.Length, true))
  {
    if safe && dist > p.op {
      return p.(at := Return(LookbehindOverrun));
    }
    if safe && out.Length - p.op < t + 2 {
      return p.(at := Return(OutputOverrun));
    }
    CopyBack(out, p.op, dist, t, chunks);
    q := Point(MatchDone, p.ip, p.op + t + 2, 0);
  }

  /** From match: the operands of an M1, M2, M3 or M4 instruction, then the copy. */
  method AtMatch(input: seq<Byte>, out: array<Byte>, p: Point, ghost trail: Trail, safe: bool) returns (q: Point)
    requires p.at == MatchTop && ValidPoint(input, out.Length, p, trail)
    requires safe || Marked(Resume(input, out.Length, p, trail, out[..p.op]))
    modifies out
    ensures ValidPoint(input, out.Length, q, 0) && (q.at.MatchDone? || q.at.Return?)
    ensures Resume(input, out.Length, q, 0, out[..q.op]) == old(Resume(input, out.Length, p, trail, out[..p.op]))
    ensures q.ip > p.ip || (q.ip == p.ip && q.at.Return?)
  {
    var t := p.t;
    if t < 16 || t >= 64 {
      if p.ip >= |input| {
        return p.(at := Return(Undefined));
      }
      var b: int := input[p.ip];
      if t >= 64 {
        q := TakeMatch(input, out, p.(ip := p.ip + 1), 1 + (t / 4) % 8 + b * 8, t / 32 - 1, false, safe);
      } else {
        q := TakeMatch(input, out, p.(ip := p.ip + 1), 1 + t / 4 + b * 4, 0, false, safe);
      }
      return;
    }
    q := AtFarLength(input, out, p, safe);
  }

  /** The length of an M3 or M4 instruction. */
  method AtFarLength(input: seq<Byte>, out: array<Byte>, p: Point, safe: bool) returns (q: Point)
    requires p.ip <= |input| && p.op <= out.Length && 16 <= p.t < 64
    requires safe || Marked(FarLength(input, p.ip, out[..p.op], p.t, out.Length, true))
    modifies out
    ensures ValidPoint(input, out.Length, q, 0) && (q.at.MatchDone? || q.at.Return?)
    ensures q.ip > p.ip || (q.ip == p.ip && q.at.Return?)
    ensures Resume(input, out.Length, q, 0, out[..q.op])
      == old(FarLength(input, p.ip, out[..p.op], p.t, out.Length, true))
  {
    var mask := if p.t >= 32 then 31 else 7;
    var t: nat, ip: nat := p.t % (mask + 1), p.ip;
    if t == 0 {
      var ok;
      ok, t, ip := ReadLength(input, ip, mask, safe);
      if !ok {
        return p.(at := Return(InputOverrun));
      }
    }
    assert FarLength(input, p.ip, out[..p.op], p.t, out.Length, true)
      == Far(input, ip, out[..p.op], p.t, t, out.Length, true);
    q := AtFar(input, out, p.(ip := ip), p.t, t, safe);
  }

  /** The offset of an M3 or M4 instruction, the end marker, and the copy. */
  method AtFar(input: seq<Byte>, out: array<Byte>, p: Point, first: nat, t: nat, safe: bool) returns (q: Point)
    requires p.ip <= |input| && p.op <= out.Length && 16 <= first < 64 && t > 0
    requires safe || Marked(Far(input, p.ip, out[..p.op], first, t, out.Length, true))
    modifies out
    ensures ValidPoint(input, out.Length, q, 0) && (q.at.MatchDone? || q.at.Return?)
    ensures q.ip > p.ip || (q.ip == p.ip && q.at.Return?)
    ensures Resume(input, out.Length, q, 0, out[..q.op])
      == old(Far(input, p.ip, out[..p.op], first, t, out.Length, true))
  {
    if |input| - p.ip < 2 {
      return p.(at := Return(Undefined));
    }
    var low, high: int := input[p.ip], input[p.ip + 1];
    var offset := low / 4 + high * 64;
    var ip := p.ip + 2;
    if first >= 32 {
      q := TakeMatch(input, out, p.(ip := ip), offset + 1, t, true, safe);
    } else {
      offset := offset + (first / 8) % 2 * 0x4000;
      if offset == 0 {
        return p.(at := Return(if ip == |input| then Ok else InputNotConsumed), ip := ip);
      }
      q := TakeMatch(input, out, p.(ip := ip), offset + 0x4000, t, true, safe);
    }
  }

  /** From match_next: the literals after a match, and the next instruction byte. */
  method AtMatchNext(input: seq<Byte>, out: array<Byte>, p: Point, safe: bool) returns (q: Point)
    requires p.at == MatchNext && ValidPoint(input, out.Length, p, 0)
    requires safe || Marked(Resume(input, out.Length, p, 0, out[..p.op]))
    modifies out
    ensures ValidPoint(input, out.Length, q, p.t)
    ensures Resume(input, out.Length, q, p.t, out[..q.op]) == old(Resume(input, out.Length, p, 0, out[..p.op]))
    ensures q.ip > p.ip || (q.ip == p.ip && q.at.Return?)
  {
    if safe && out.Length - p.op < p.t {
      return p.(at := Return(OutputOverrun));
    }
    if safe && |input| - p.ip < p.t + 1 {
      return p.(at := Return(InputOverrun));
    }
    CopyFew(input, p.ip, out, p.op, p.t);
    var ip, op := p.ip + p.t, p.op + p.t;
    assert Literals(input, p.ip, old(out[..p.op]), p.t, p.t, out.Length, true)
      == Instruction(input, ip, out[..op], p.t, out.Length, true);
    var t: nat := input[ip];
    ip := ip + 1;
    if safe && ip >= |input| {
      return Point(Return(EofNotFound), ip, op, t);
    }
    return Point(MatchTop, ip, op, t);
  }

  lemma AtMatchDone(input: seq<Byte>, cap: nat, p: Point, o: seq<Byte>)
    requires p.at == MatchDone && ValidPoint(input, cap, p, 0)
    ensures var t := input[p.ip - 2] % 4;
            var q := if t == 0 then p.(at := Head, t := t) else p.(at := MatchNext, t := t);
            ValidPoint(input, cap, q, 0) && Resume(input, cap, q, 0, o) == Resume(input, cap, p, 0, o)
  {
  }

  /** lzo1x_decompress_safe (safe) and lzo1x_decompress (not safe): the outcome of the
      stream.  The unchecked one is given only streams the checked one accepts. */
  method Decompress(input: seq<Byte>, out: array<Byte>, safe: bool) returns (code: Code, n: nat)
    requires safe || Marked(Decode(input, out.Length, true))
    modifies out
    ensures n <= out.Length && Outcome(code, out[..n]) == Decode(input, out.Length, safe)
  {
    if Marked(Decode(input, out.Length, true)) {
      DecodeUnchecked(input, out.Length);
    }
    if |input| == 0 {
      return Undefined, 0;
    }
    ghost var target := Decode(input, out.Length, true);
    var p := Point(Head, 0, 0, 0);
    ghost var trail: Trail := 0;
    assert out[..0] == [];
    if input[0] > 17 {
      var t: nat := input[0] - 17;
      if t < 4 {
        p := Point(MatchNext, 1, 0, t);
      } else {
        p := FirstRun(input, out, t, safe);
      }
    }
    while !p.at.Return?
      invariant ValidPoint(input, out.Length, p, trail) && Resume(input, out.Length, p, trail, out[..p.op]) == target
      invariant !p.at.MatchTop? ==> trail == 0
      decreases |input| - p.ip, Rank(p.at)
    {
      match p.at {
        case Head => p := AtHead(input, out, p, safe);
        case FirstLiteralRun => p := AtFirstLiteralRun(input, out, p, safe);
        case MatchTop =>
          p := AtMatch(input, out, p, trail, safe);
          trail := 0;
        case MatchDone =>
          AtMatchDone(input, out.Length, p, out[..p.op]);
          var t := input[p.ip - 2] % 4;
          p := if t == 0 then p.(at := Head, t := t) else p.(at := MatchNext, t := t);
        case MatchNext =>
          trail := p.t;
          p := AtMatchNext(input, out, p, safe);
          if !p.at.MatchTop? { trail := 0; }
      }
    }
    code, n := p.at.code, p.op;
  }

  /** The literal run in a first byte above 20. */
  method FirstRun(input: seq<Byte>, out: array<Byte>, t: nat, safe: bool) returns (p: Point)
    requires |input| > 0 && input[0] == 17 + t && t >= 4
    requires safe || Marked(Decode(input, out.Length, true))
    modifies out
    ensures ValidPoint(input, out.Length, p, 0) && !p.at.MatchTop?
    ensures Resume(input, out.Length, p, 0, out[..p.op]) == Decode(input, out.Length, true)
  {
    assert out[..0] == [];
    if safe && out.Length < t {
      return Point(Return(OutputOverrun), 1, 0, t);
    }
    if safe && |input| - 1 < t + 1 {
      return Point(Return(InputOverrun), 1, 0, t);
    }
    CopyFew(input, 1, out, 0, t);
    assert [] + input[1..1 + t] == input[1..1 + t];
    p := Point(FirstLiteralRun, 1 + t, t, 0);
  }
}
