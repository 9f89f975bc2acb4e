/** The LZO1X stream format as the decompressors of Externals/LZO/minilzo.c read it: one
    instruction at a time, copying byte by byte.  This is the simple form that the
    pointer-walking loops and their four-byte copies are proved against. */
module LzoFormat {
  type Byte = x: int | 0 <= x < 256

  const M2_MAX_OFFSET := 0x0800
  const M3_MAX_OFFSET := 0x4000
  const M4_MAX_OFFSET := 0xbfff
  const M2_MAX_LEN := 8
  const M3_MARKER := 32
  const M4_MARKER := 16

  /** The return codes.  Undefined stands for a read outside the input or before the
      output, which only the unchecked decompressor makes on its own. */
  datatype Code =
    | Ok
    | InputNotConsumed
    | InputOverrun
    | OutputOverrun
    | LookbehindOverrun
    | EofNotFound
    | Undefined

  datatype Outcome = Outcome(code: Code, out: seq<Byte>)

  /** What was copied just before the next instruction byte: nothing after a match (or at
      the start), one to three literals, or a literal run. */
  type Trail = x: int | 0 <= x <= 4

  const LITERAL_RUN: Trail := 4

  /** len bytes from dist bytes back, each byte readable as soon as it is written. */
  function CopyMatch(out: seq<Byte>, dist: int, len: nat): (r: seq<Byte>)
    requires 0 < dist <= |out|
    ensures |r| == |out| + len && out <= r
    decreases len
  {
    if len == 0 then out
    else
      var longer := out + [out[|out| - dist]];
      CopyMatch(longer, dist, len - 1)
  }

  /** The number of zero bytes from ip on, up to the first byte that is not. */
  function Zeros(input: seq<Byte>, ip: nat): (n: nat)
    ensures ip + n <= |input| || n == 0
    ensures forall i :: ip <= i < ip + n ==> input[i] == 0
    ensures ip + n < |input| ==> input[ip + n] != 0
    decreases |input| - ip
  {
    if ip < |input| && input[ip] == 0 then 1 + Zeros(input, ip + 1) else 0
  }

  /** A read the checked decompressor refuses and the unchecked one makes anyway. */
  function Overrun(safe: bool, code: Code): Code {
    if safe then code else Undefined
  }

  /** n literals at ip, then the instruction after them. */
  function Literals(input: seq<Byte>, ip: nat, out: seq<Byte>, n: nat, trail: Trail, cap: nat, safe: bool): Outcome
    requires ip <= |input|
    decreases |input| - ip, 1
  {
    if safe && cap - |out| < n then Outcome(OutputOverrun, out)
    else if safe && |input| - ip < n + 1 then Outcome(InputOverrun, out)
    else if |input| - ip < n then Outcome(Undefined, out)
    else Instruction(input, ip + n, out + input[ip..ip + n], trail, cap, safe)
  }

  /** A match of len bytes at distance dist, whose last two bytes end at ip: the low bits
      of the first of them count the literals that follow. */
  function Match(input: seq<Byte>, ip: nat, out: seq<Byte>, dist: int, len: nat, cap: nat, safe: bool): Outcome
    requires 2 <= ip <= |input| && dist > 0
    decreases |input| - ip, 2
  {
    if dist > |out| then Outcome(Overrun(safe, LookbehindOverrun), out)
    else if safe && cap - |out| < len then Outcome(OutputOverrun, out)
    else
      var copied := CopyMatch(out, dist, len);
      var k := input[ip - 2] % 4;
      if k == 0 then Instruction(input, ip, copied, 0, cap, safe)
      else Literals(input, ip, copied, k, k, cap, safe)
  }

  /** A length whose field was zero: a run of zero bytes and a last byte. */
  function LongLength(input: seq<Byte>, ip: nat, base: nat): nat
    requires ip + Zeros(input, ip) < |input|
  {
    255 * Zeros(input, ip) + base + input[ip + Zeros(input, ip)]
  }

  /** The end of an M3 or M4 instruction of length field t (plus two): its two offset
      bytes at ip, and the end-of-stream marker. */
  function Far(input: seq<Byte>, ip: nat, out: seq<Byte>, first: Byte, t: nat, cap: nat, safe: bool): Outcome
    requires ip <= |input| && first >= 16
    decreases |input| - ip, 3
  {
    if |input| - ip < 2 then Outcome(Undefined, out)
    else
      var offset := (input[ip] / 4) as int + (input[ip + 1] as int) * 64;
      if first >= M3_MARKER then Match(input, ip + 2, out, offset + 1, t + 2, cap, safe)
      else
        var high := ((first / 8) % 2) as int * 0x4000;
        if high + offset == 0 then
          Outcome(if ip + 2 == |input| then Ok else InputNotConsumed, out)
        else Match(input, ip + 2, out, high + offset + 0x4000, t + 2, cap, safe)
  }

  /** An M3 or M4 instruction after its first byte. */
  function FarLength(input: seq<Byte>, ip: nat, out: seq<Byte>, first: Byte, cap: nat, safe: bool): Outcome
    requires ip <= |input| && first >= 16
    decreases |input| - ip, 4
  {
    var mask := if first >= M3_MARKER then 31 else 7;
    var t := first % (mask + 1);
    if t > 0 then Far(input, ip, out, first, t, cap, safe)
    else
      var z := Zeros(input, ip);
      if ip + z >= |input| then Outcome(Overrun(safe, InputOverrun), out)
      else Far(input, ip + z + 1, out, first, LongLength(input, ip, mask), cap, safe)
  }

  /** A match instruction after its first byte. */
  function MatchInstruction(input: seq<Byte>, ip: nat, out: seq<Byte>, first: Byte, trail: Trail, cap: nat,
                            safe: bool): Outcome
    requires 1 <= ip <= |input|
    decreases |input| - ip, 5
  {
    if first >= 16 && first < 64 then FarLength(input, ip, out, first, cap, safe)
    else if ip >= |input| then Outcome(Undefined, out)
    else if first >= 64 then
      Match(input, ip + 1, out, 1 + ((first / 4) % 8) as int + (input[ip] as int) * 8, first / 32 + 1, cap, safe)
    else if trail == LITERAL_RUN then
      Match(input, ip + 1, out, 1 + M2_MAX_OFFSET + (first / 4) as int + (input[ip] as int) * 4, 3, cap, safe)
    else
      Match(input, ip + 1, out, 1 + (first / 4) as int + (input[ip] as int) * 4, 2, cap, safe)
  }

  /** The instruction at ip. */
  function Instruction(input: seq<Byte>, ip: nat, out: seq<Byte>, trail: Trail, cap: nat, safe: bool): Outcome
    requires ip <= |input|
    decreases |input| - ip, 0
  {
    if ip >= |input| then Outcome(if safe && trail == 0 then EofNotFound else Undefined, out)
    else
      var first := input[ip];
      if trail == 0 && first < 16 then
        if first > 0 then Literals(input, ip + 1, out, first + 3, LITERAL_RUN, cap, safe)
        else
          var z := Zeros(input, ip + 1);
          if ip + 1 + z >= |input| then Outcome(Overrun(safe, InputOverrun), out)
          else Literals(input, ip + 1 + z + 1, out, LongLength(input, ip + 1, 15) + 3, LITERAL_RUN, cap, safe)
      else if safe && 1 <= trail <= 3 && ip + 1 >= |input| then Outcome(EofNotFound, out)
      else MatchInstruction(input, ip + 1, out, first, trail, cap, safe)
  }

  /** A whole stream; its first byte may carry a literal count of its own. */
  function Decode(input: seq<Byte>, cap: nat, safe: bool): Outcome {
    if |input| == 0 then Outcome(Undefined, [])
    else if input[0] > 17 then
      var t := input[0] - 17;
      Literals(input, 1, [], t, if t < 4 then t else LITERAL_RUN, cap, safe)
    else Instruction(input, 0, [], 0, cap, safe)
  }

  /** The outcome of a stream that carries its end marker, when there is room for it. */
  predicate Marked(o: Outcome) {
    o.code.Ok? || o.code.InputNotConsumed?
  }

  lemma {:induction false} LiteralsUnchecked(input: seq<Byte>, ip: nat, out: seq<Byte>, n: nat, trail: Trail, cap: nat)
    requires ip <= |input| && Marked(Literals(input, ip, out, n, trail, cap, true))
    ensures Literals(input, ip, out, n, trail, cap, false) == Literals(input, ip, out, n, trail, cap, true)
    decreases |input| - ip, 1
  {
    InstructionUnchecked(input, ip + n, out + input[ip..ip + n], trail, cap);
  }

  lemma {:induction false} MatchUnchecked(input: seq<Byte>, ip: nat, out: seq<Byte>, dist: int, len: nat, cap: nat)
    requires 2 <= ip <= |input| && dist > 0 && Marked(Match(input, ip, out, dist, len, cap, true))
    ensures Match(input, ip, out, dist, len, cap, false) == Match(input, ip, out, dist, len, cap, true)
    decreases |input| - ip, 2
  {
    var copied, k := CopyMatch(out, dist, len), input[ip - 2] % 4;
    if k == 0 {
      InstructionUnchecked(input, ip, copied, 0, cap);
    } else {
      LiteralsUnchecked(input, ip, copied, k, k, cap);
    }
  }

  lemma {:induction false} FarUnchecked(input: seq<Byte>, ip: nat, out: seq<Byte>, first: Byte, t: nat, cap: nat)
    requires ip <= |input| && first >= 16 && Marked(Far(input, ip, out, first, t, cap, true))
    ensures Far(input, ip, out, first, t, cap, false) == Far(input, ip, out, first, t, cap, true)
    decreases |input| - ip, 3
  {
    var offset := (input[ip] / 4) as int + (input[ip + 1] as int) * 64;
    var high := ((first / 8) % 2) as int * 0x4000;
    if first >= M3_MARKER {
      MatchUnchecked(input, ip + 2, out, offset + 1, t + 2, cap);
    } else if high + offset > 0 {
      MatchUnchecked(input, ip + 2, out, high + offset + 0x4000, t + 2, cap);
    }
  }

  lemma {:induction false} FarLengthUnchecked(input: seq<Byte>, ip: nat, out: seq<Byte>, first: Byte, cap: nat)
    requires ip <= |input| && first >= 16 && Marked(FarLength(input, ip, out, first, cap, true))
    ensures FarLength(input, ip, out, first, cap, false) == FarLength(input, ip, out, first, cap, true)
    decreases |input| - ip, 4
  {
    var mask := if first >= M3_MARKER then 31 else 7;
    var t := first % (mask + 1);
    if t > 0 {
      FarUnchecked(input, ip, out, first, t, cap);
    } else {
      FarUnchecked(input, ip + Zeros(input, ip) + 1, out, first, LongLength(input, ip, mask), cap);
    }
  }

  lemma {:induction false} InstructionUnchecked(input: seq<Byte>, ip: nat, out: seq<Byte>, trail: Trail, cap: nat)
    requires ip <= |input| && Marked(Instruction(input, ip, out, trail, cap, true))
    ensures Instruction(input, ip, out, trail, cap, false) == Instruction(input, ip, out, trail, cap, true)
    decreases |input| - ip, 0
  {
    var first := input[ip];
    if trail == 0 && first < 16 {
      if first > 0 {
        LiteralsUnchecked(input, ip + 1, out, first + 3, LITERAL_RUN, cap);
      } else {
        LiteralsUnchecked(input, ip + 1 + Zeros(input, ip + 1) + 1, out, LongLength(input, ip + 1, 15) + 3, LITERAL_RUN,
                          cap);
      }
    } else {
      MatchInstructionUnchecked(input, ip + 1, out, first, trail, cap);
    }
  }

  lemma {:induction false} MatchInstructionUnchecked(input: seq<Byte>, ip: nat, out: seq<Byte>, first: Byte,
                                                     trail: Trail, cap: nat)
    requires 1 <= ip <= |input| && Marked(MatchInstruction(input, ip, out, first, trail, cap, true))
    ensures MatchInstruction(input, ip, out, first, trail, cap, false)
      == MatchInstruction(input, ip, out, first, trail, cap, true)
    decreases |input| - ip, 5
  {
    if 16 <= first < 64 {
      FarLengthUnchecked(input, ip, out, first, cap);
    } else if first >= 64 {
      MatchUnchecked(input, ip + 1, out, 1 + ((first / 4) % 8) as int + (input[ip] as int) * 8, first / 32 + 1, cap);
    } else if trail == LITERAL_RUN {
      MatchUnchecked(input, ip + 1, out, 1 + M2_MAX_OFFSET + (first / 4) as int + (input[ip] as int) * 4, 3, cap);
    } else {
      MatchUnchecked(input, ip + 1, out, 1 + (first / 4) as int + (input[ip] as int) * 4, 2, cap);
    }
  }

  /** Whatever the checked decompressor accepts, the unchecked one decodes alike. */
  lemma DecodeUnchecked(input: seq<Byte>, cap: nat)
    requires Marked(Decode(input, cap, true))
    ensures Decode(input, cap, false) == Decode(input, cap, true)
  {
    if input[0] > 17 {
      var t := input[0] - 17;
      LiteralsUnchecked(input, 1, [], t, if t < 4 then t else LITERAL_RUN, cap);
    } else {
      InstructionUnchecked(input, 0, [], 0, cap);
    }
  }
}
