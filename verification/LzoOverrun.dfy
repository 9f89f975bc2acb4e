/** What the checked decompressor of Externals/LZO/minilzo.c makes of a good stream when the output
    is too small for it, when it was cut short and when more follows it. */
module LzoOverrun {
  import opened LzoFormat

  // ---- too little room ----

  /** The outcome with only so much room, beside that with enough: the same when the output fits, and
      otherwise an overrun that has written the beginning of the output and no more than fits. */
  ghost predicate WithRoom(o: Outcome, whole: Outcome, out: seq<Byte>, room: nat) {
    && out <= whole.out
    && if |whole.out| <= room then o == whole
       else o.code == OutputOverrun && o.out <= whole.out && |o.out| <= room
  }

  lemma {:induction false} LiteralsRoom(input: seq<Byte>, ip: nat, out: seq<Byte>, n: nat, trail: Trail, cap: nat,
                                        room: nat)
    requires ip <= |input| && |out| <= room && Marked(Literals(input, ip, out, n, trail, cap, true))
    ensures WithRoom(Literals(input, ip, out, n, trail, room, true), Literals(input, ip, out, n, trail, cap, true), out,
                     room)
    decreases |input| - ip, 1
  {
    var longer := out + input[ip..ip + n];
    InstructionRoom(input, ip + n, longer, trail, cap, if room < |longer| then cap else room);
  }

  lemma {:induction false} MatchRoom(input: seq<Byte>, ip: nat, out: seq<Byte>, dist: int, len: nat, cap: nat,
                                     room: nat)
    requires 2 <= ip <= |input| && dist > 0 && |out| <= room && Marked(Match(input, ip, out, dist, len, cap, true))
    ensures WithRoom(Match(input, ip, out, dist, len, room, true), Match(input, ip, out, dist, len, cap, true), out,
                     room)
    decreases |input| - ip, 2
  {
    var copied, k := CopyMatch(out, dist, len), input[ip - 2] % 4;
    var enough := if room < |copied| then cap else room;
    if k == 0 {
      InstructionRoom(input, ip, copied, 0, cap, enough);
    } else {
      LiteralsRoom(input, ip, copied, k, k, cap, enough);
    }
  }

  lemma {:induction false} FarRoom(input: seq<Byte>, ip: nat, out: seq<Byte>, first: Byte, t: nat, cap: nat, room: nat)
    requires ip <= |input| && first >= 16 && |out| <= room && Marked(Far(input, ip, out, first, t, cap, true))
    ensures WithRoom(Far(input, ip, out, first, t, room, true), Far(input, ip, out, first, t, cap, true), out, room)
    decreases |input| - ip, 3
  {
    var offset := (input[ip] / 4) as int + (input[ip + 1] as int) * 64;
    var high := ((first / 8) % 2) as int * 0x4000;
    if first >= M3_MARKER {
      MatchRoom(input, ip + 2, out, offset + 1, t + 2, cap, room);
    } else if high + offset > 0 {
      MatchRoom(input, ip + 2, out, high + offset + 0x4000, t + 2, cap, room);
    }
  }

  lemma {:induction false} FarLengthRoom(input: seq<Byte>, ip: nat, out: seq<Byte>, first: Byte, cap: nat, room: nat)
    requires ip <= |input| && first >= 16 && |out| <= room && Marked(FarLength(input, ip, out, first, cap, true))
    ensures WithRoom(FarLength(input, ip, out, first, room, true), FarLength(input, ip, out, first, cap, true), out,
                     room)
    decreases |input| - ip, 4
  {
    var mask := if first >= M3_MARKER then 31 else 7;
    var t := first % (mask + 1);
    if t > 0 {
      FarRoom(input, ip, out, first, t, cap, room);
    } else {
      FarRoom(input, ip + Zeros(input, ip) + 1, out, first, LongLength(input, ip, mask), cap, room);
    }
  }

  lemma {:induction false} MatchInstructionRoom(input: seq<Byte>, ip: nat, out: seq<Byte>, first: Byte, trail: Trail,
                                                cap: nat, room: nat)
    requires 1 <= ip <= |input| && |out| <= room
    requires Marked(MatchInstruction(input, ip, out, first, trail, cap, true))
    ensures WithRoom(MatchInstruction(input, ip, out, first, trail, room, true),
                     MatchInstruction(input, ip, out, first, trail, cap, true), out, room)
    decreases |input| - ip, 5
  {
    if 16 <= first < 64 {
      FarLengthRoom(input, ip, out, first, cap, room);
    } else if first >= 64 {
      MatchRoom(input, ip + 1, out, 1 + ((first / 4) % 8) as int + (input[ip] as int) * 8, first / 32 + 1, cap, room);
    } else if trail == LITERAL_RUN {
      MatchRoom(input, ip + 1, out, 1 + M2_MAX_OFFSET + (first / 4) as int + (input[ip] as int) * 4, 3, cap, room);
    } else {
      MatchRoom(input, ip + 1, out, 1 + (first / 4) as int + (input[ip] as int) * 4, 2, cap, room);
    }
  }

  lemma {:induction false} InstructionRoom(input: seq<Byte>, ip: nat, out: seq<Byte>, trail: Trail, cap: nat, room: nat)
    requires ip <= |input| && |out| <= room && Marked(Instruction(input, ip, out, trail, cap, true))
    ensures WithRoom(Instruction(input, ip, out, trail, room, true), Instruction(input, ip, out, trail, cap, true), out,
                     room)
    decreases |input| - ip, 0
  {
    var first := input[ip];
    if trail == 0 && first < 16 {
      if first > 0 {
        LiteralsRoom(input, ip + 1, out, first + 3, LITERAL_RUN, cap, room);
      } else {
        LiteralsRoom(input, ip + 1 + Zeros(input, ip + 1) + 1, out, LongLength(input, ip + 1, 15) + 3, LITERAL_RUN, cap,
                     room);
      }
    } else {
      MatchInstructionRoom(input, ip + 1, out, first, trail, cap, room);
    }
  }

  /** A stream with its end marker decodes to the same with any room that holds its output, and with
      less it is an output overrun. */
  lemma DecodeRoom(input: seq<Byte>, cap: nat, room: nat)
    requires Marked(Decode(input, cap, true))
    ensures var o, whole := Decode(input, room, true), Decode(input, cap, true);
      if |whole.out| <= room then o == whole
      else o.code == OutputOverrun && o.out <= whole.out && |o.out| <= room
  {
    if input[0] > 17 {
      var t := input[0] - 17;
      LiteralsRoom(input, 1, [], t, if t < 4 then t else LITERAL_RUN, cap, room);
    } else {
      InstructionRoom(input, 0, [], 0, cap, room);
    }
  }

  // ---- a stream cut short ----

  /** The end of the input was noticed, or would have been read past. */
  predicate Short(o: Outcome) {
    o.code.InputOverrun? || o.code.EofNotFound? || o.code.Undefined?
  }

  lemma {:induction false} ZerosCut(input: seq<Byte>, ip: nat, k: nat)
    requires ip <= k <= |input|
    ensures Zeros(input[..k], ip) == if ip + Zeros(input, ip) < k then Zeros(input, ip) else k - ip
    decreases k - ip
  {
    if ip < k && input[ip] == 0 { ZerosCut(input, ip + 1, k); }
  }

  lemma {:induction false} LiteralsCut(input: seq<Byte>, ip: nat, out: seq<Byte>, n: nat, trail: Trail, cap: nat,
                                       k: nat)
    requires ip <= k < |input| && Literals(input, ip, out, n, trail, cap, true).code == Ok
    ensures Short(Literals(input[..k], ip, out, n, trail, cap, true))
    decreases |input| - ip, 1
  {
    if ip + n < k {
      assert input[..k][ip..ip + n] == input[ip..ip + n];
      InstructionCut(input, ip + n, out + input[ip..ip + n], trail, cap, k);
    }
  }

  lemma {:induction false} MatchCut(input: seq<Byte>, ip: nat, out: seq<Byte>, dist: int, len: nat, cap: nat, k: nat)
    requires 2 <= ip <= k < |input| && dist > 0 && Match(input, ip, out, dist, len, cap, true).code == Ok
    ensures Short(Match(input[..k], ip, out, dist, len, cap, true))
    decreases |input| - ip, 2
  {
    var copied, n := CopyMatch(out, dist, len), input[ip - 2] % 4;
    if n == 0 {
      InstructionCut(input, ip, copied, 0, cap, k);
    } else {
      LiteralsCut(input, ip, copied, n, n, cap, k);
    }
  }

  lemma {:induction false} FarCut(input: seq<Byte>, ip: nat, out: seq<Byte>, first: Byte, t: nat, cap: nat, k: nat)
    requires ip <= k < |input| && first >= 16 && Far(input, ip, out, first, t, cap, true).code == Ok
    ensures Short(Far(input[..k], ip, out, first, t, cap, true))
    decreases |input| - ip, 3
  {
    if ip + 2 <= k {
      var offset := (input[ip] / 4) as int + (input[ip + 1] as int) * 64;
      var high := ((first / 8) % 2) as int * 0x4000;
      if first >= M3_MARKER {
        MatchCut(input, ip + 2, out, offset + 1, t + 2, cap, k);
      } else if high + offset > 0 {
        MatchCut(input, ip + 2, out, high + offset + 0x4000, t + 2, cap, k);
      }
    }
  }

  lemma {:induction false} FarLengthCut(input: seq<Byte>, ip: nat, out: seq<Byte>, first: Byte, cap: nat, k: nat)
    requires ip <= k < |input| && first >= 16 && FarLength(input, ip, out, first, cap, true).code == Ok
    ensures Short(FarLength(input[..k], ip, out, first, cap, true))
    decreases |input| - ip, 4
  {
    hide Far, Match, Zeros;
    var mask := if first >= M3_MARKER then 31 else 7;
    var t := first % (mask + 1);
    if t > 0 {
      FarCut(input, ip, out, first, t, cap, k);
    } else {
      ZerosCut(input, ip, k);
      if ip + Zeros(input, ip) < k {
        FarCut(input, ip + Zeros(input, ip) + 1, out, first, LongLength(input, ip, mask), cap, k);
      }
    }
  }

  lemma {:induction false} MatchInstructionCut(input: seq<Byte>, ip: nat, out: seq<Byte>, first: Byte, trail: Trail,
                                               cap: nat, k: nat)
    requires 1 <= ip <= k < |input| && MatchInstruction(input, ip, out, first, trail, cap, true).code == Ok
    ensures Short(MatchInstruction(input[..k], ip, out, first, trail, cap, true))
    decreases |input| - ip, 5
  {
    hide Match, FarLength, Zeros;
    if 16 <= first < 64 {
      FarLengthCut(input, ip, out, first, cap, k);
    } else if ip < k {
      if first >= 64 {
        MatchCut(input, ip + 1, out, 1 + ((first / 4) % 8) as int + (input[ip] as int) * 8, first / 32 + 1, cap, k);
      } else if trail == LITERAL_RUN {
        MatchCut(input, ip + 1, out, 1 + M2_MAX_OFFSET + (first / 4) as int + (input[ip] as int) * 4, 3, cap, k);
      } else {
        MatchCut(input, ip + 1, out, 1 + (first / 4) as int + (input[ip] as int) * 4, 2, cap, k);
      }
    }
  }

  lemma {:induction false} InstructionCut(input: seq<Byte>, ip: nat, out: seq<Byte>, trail: Trail, cap: nat, k: nat)
    requires ip <= k < |input| && Instruction(input, ip, out, trail, cap, true).code == Ok
    ensures Short(Instruction(input[..k], ip, out, trail, cap, true))
    decreases |input| - ip, 0
  {
    hide Literals, MatchInstruction, Zeros;
    if ip < k {
      var first := input[ip];
      if trail == 0 && first < 16 {
        if first > 0 {
          LiteralsCut(input, ip + 1, out, first + 3, LITERAL_RUN, cap, k);
        } else {
          ZerosCut(input, ip + 1, k);
          if ip + 1 + Zeros(input, ip + 1) < k {
            LiteralsCut(input, ip + 1 + Zeros(input, ip + 1) + 1, out, LongLength(input, ip + 1, 15) + 3, LITERAL_RUN,
                        cap, k);
          }
        }
      } else {
        MatchInstructionCut(input, ip + 1, out, first, trail, cap, k);
      }
    }
  }

  /** No proper beginning of an accepted stream is accepted: the missing input is noticed, or would
      be read. */
  lemma DecodeCut(input: seq<Byte>, cap: nat, k: nat)
    requires Decode(input, cap, true).code == Ok && k < |input|
    ensures var o := Decode(input[..k], cap, true);
      o.code.InputOverrun? || o.code.EofNotFound? || o.code.Undefined?
  {
    if k > 0 {
      if input[0] > 17 {
        var t := input[0] - 17;
        LiteralsCut(input, 1, [], t, if t < 4 then t else LITERAL_RUN, cap, k);
      } else {
        InstructionCut(input, 0, [], 0, cap, k);
      }
    }
  }

  // ---- a stream with more behind it ----

  /** What comes of input when its first k bytes are a whole stream. */
  ghost predicate NotConsumed(o: Outcome, whole: Outcome) {
    o == Outcome(InputNotConsumed, whole.out)
  }

  lemma {:induction false} LiteralsMore(input: seq<Byte>, ip: nat, out: seq<Byte>, n: nat, trail: Trail, cap: nat,
                                        k: nat)
    requires ip <= k < |input| && Literals(input[..k], ip, out, n, trail, cap, true).code == Ok
    ensures NotConsumed(Literals(input, ip, out, n, trail, cap, true),
                        Literals(input[..k], ip, out, n, trail, cap, true))
    decreases |input| - ip, 1
  {
    assert input[..k][ip..ip + n] == input[ip..ip + n];
    InstructionMore(input, ip + n, out + input[ip..ip + n], trail, cap, k);
  }

  lemma {:induction false} MatchMore(input: seq<Byte>, ip: nat, out: seq<Byte>, dist: int, len: nat, cap: nat, k: nat)
    requires 2 <= ip <= k < |input| && dist > 0 && Match(input[..k], ip, out, dist, len, cap, true).code == Ok
    ensures NotConsumed(Match(input, ip, out, dist, len, cap, true), Match(input[..k], ip, out, dist, len, cap, true))
    decreases |input| - ip, 2
  {
    var copied, n := CopyMatch(out, dist, len), input[ip - 2] % 4;
    if n == 0 {
      InstructionMore(input, ip, copied, 0, cap, k);
    } else {
      LiteralsMore(input, ip, copied, n, n, cap, k);
    }
  }

  lemma {:induction false} FarMore(input: seq<Byte>, ip: nat, out: seq<Byte>, first: Byte, t: nat, cap: nat, k: nat)
    requires ip <= k < |input| && first >= 16 && Far(input[..k], ip, out, first, t, cap, true).code == Ok
    ensures NotConsumed(Far(input, ip, out, first, t, cap, true), Far(input[..k], ip, out, first, t, cap, true))
    decreases |input| - ip, 3
  {
    hide Match;
    var offset := (input[ip] / 4) as int + (input[ip + 1] as int) * 64;
    var high := ((first / 8) % 2) as int * 0x4000;
    if first >= M3_MARKER {
      MatchMore(input, ip + 2, out, offset + 1, t + 2, cap, k);
    } else if high + offset > 0 {
      MatchMore(input, ip + 2, out, high + offset + 0x4000, t + 2, cap, k);
    }
  }

  lemma {:induction false} FarLengthMore(input: seq<Byte>, ip: nat, out: seq<Byte>, first: Byte, cap: nat, k: nat)
    requires ip <= k < |input| && first >= 16 && FarLength(input[..k], ip, out, first, cap, true).code == Ok
    ensures NotConsumed(FarLength(input, ip, out, first, cap, true), FarLength(input[..k], ip, out, first, cap, true))
    decreases |input| - ip, 4
  {
    hide Far, Match, Zeros;
    var mask := if first >= M3_MARKER then 31 else 7;
    var t := first % (mask + 1);
    if t > 0 {
      FarMore(input, ip, out, first, t, cap, k);
    } else {
      ZerosCut(input, ip, k);
      FarMore(input, ip + Zeros(input, ip) + 1, out, first, LongLength(input, ip, mask), cap, k);
    }
  }

  lemma {:induction false} MatchInstructionMore(input: seq<Byte>, ip: nat, out: seq<Byte>, first: Byte, trail: Trail,
                                                cap: nat, k: nat)
    requires 1 <= ip <= k < |input| && MatchInstruction(input[..k], ip, out, first, trail, cap, true).code == Ok
    ensures NotConsumed(MatchInstruction(input, ip, out, first, trail, cap, true),
                        MatchInstruction(input[..k], ip, out, first, trail, cap, true))
    decreases |input| - ip, 5
  {
    hide Match, FarLength, Zeros;
    if 16 <= first < 64 {
      FarLengthMore(input, ip, out, first, cap, k);
    } else if first >= 64 {
      MatchMore(input, ip + 1, out, 1 + ((first / 4) % 8) as int + (input[ip] as int) * 8, first / 32 + 1, cap, k);
    } else if trail == LITERAL_RUN {
      MatchMore(input, ip + 1, out, 1 + M2_MAX_OFFSET + (first / 4) as int + (input[ip] as int) * 4, 3, cap, k);
    } else {
      MatchMore(input, ip + 1, out, 1 + (first / 4) as int + (input[ip] as int) * 4, 2, cap, k);
    }
  }

  lemma {:induction false} InstructionMore(input: seq<Byte>, ip: nat, out: seq<Byte>, trail: Trail, cap: nat, k: nat)
    requires ip <= k < |input| && Instruction(input[..k], ip, out, trail, cap, true).code == Ok
    ensures NotConsumed(Instruction(input, ip, out, trail, cap, true),
                        Instruction(input[..k], ip, out, trail, cap, true))
    decreases |input| - ip, 0
  {
    hide Literals, MatchInstruction, Zeros;
    var first := input[ip];
    if trail == 0 && first < 16 {
      if first > 0 {
        LiteralsMore(input, ip + 1, out, first + 3, LITERAL_RUN, cap, k);
      } else {
        ZerosCut(input, ip + 1, k);
        LiteralsMore(input, ip + 1 + Zeros(input, ip + 1) + 1, out, LongLength(input, ip + 1, 15) + 3, LITERAL_RUN, cap,
                     k);
      }
    } else {
      MatchInstructionMore(input, ip + 1, out, first, trail, cap, k);
    }
  }

  /** With anything behind it an accepted stream gives the same output, but not all input is consumed. */
  lemma DecodeMore(stream: seq<Byte>, more: seq<Byte>, cap: nat)
    requires Decode(stream, cap, true).code == Ok && more != []
    ensures Decode(stream + more, cap, true) == Outcome(InputNotConsumed, Decode(stream, cap, true).out)
  {
    var input := stream + more;
    assert input[..|stream|] == stream;
    if input[0] > 17 {
      var t := input[0] - 17;
      LiteralsMore(input, 1, [], t, if t < 4 then t else LITERAL_RUN, cap, |stream|);
    } else {
      InstructionMore(input, 0, [], 0, cap, |stream|);
    }
  }
}
