/** What the instructions do, stated in CHIP-8 terms, and the invariant every reachable
    state keeps. */
module InstructionLaws {
  import Bits
  import D = Decoding
  import Memories
  import opened Wrappers
  import opened Semantics

  /** Registers that all hold bytes. */
  predicate ByteRegisters(s: State)
    requires WellFormed(s)
  {
    forall r :: 0 <= r < RegisterCount ==> 0 <= s.v[r] < 256
  }

  // Dispatch and the guard.

  /** The guard of the instructions 00E0 to 7xkk. */
  lemma ControlGuarded(k: D.Instruction, op: Opcode, rnd: RandomByte, s: State)
    requires WellFormed(s) && !D.Matches(k, op)
    requires k.ClearDisplay? || k.ReturnFromSubroutine? || k.Jump? || k.Call? || k.SkipRegisterEqualsValue? || k.SkipRegisterNotEqualsValue? || k.SkipRegisterEqualsRegister? || k.UpdateRegister? || k.AddToRegister?
    ensures Execute(k, op, rnd, s) == Completed(s)
  {
  }

  /** The guard of the instructions 8xy0 to 9xy0. */
  lemma ArithmeticGuarded(k: D.Instruction, op: Opcode, rnd: RandomByte, s: State)
    requires WellFormed(s) && !D.Matches(k, op)
    requires k.Copy? || k.Or? || k.And? || k.Xor? || k.SumRegisters? || k.SubRegisters? || k.ShiftRightRegisters? || k.SubbRegisters? || k.ShiftLeftRegisters? || k.SkipRegisterNotEqualsRegister?
    ensures Execute(k, op, rnd, s) == Completed(s)
  {
  }

  /** The guard of the instructions Annn to Fx29. */
  lemma AddressGuarded(k: D.Instruction, op: Opcode, rnd: RandomByte, s: State)
    requires WellFormed(s) && !D.Matches(k, op)
    requires k.SetMemoryAddressRegister? || k.JumpToV0? || k.RandToRegister? || k.Draw? || k.UpdateRamWithRegisterAsBCDRepresentation? || k.BatchLoadRegisterWithRamValues? || k.SetMemoryAddressRegisterToCharacter?
    ensures Execute(k, op, rnd, s) == Completed(s)
  {
  }

  /** Each instruction leaves the state alone when its own matcher rejects the opcode. */
  lemma ExecuteGuarded(k: D.Instruction, op: Opcode, rnd: RandomByte, s: State)
    requires WellFormed(s) && !D.Matches(k, op)
    ensures Execute(k, op, rnd, s) == Completed(s)
  {
    if k.ClearDisplay? || k.ReturnFromSubroutine? || k.Jump? || k.Call? || k.SkipRegisterEqualsValue? || k.SkipRegisterNotEqualsValue? || k.SkipRegisterEqualsRegister? || k.UpdateRegister? || k.AddToRegister? {
      ControlGuarded(k, op, rnd, s);
    } else if k.Copy? || k.Or? || k.And? || k.Xor? || k.SumRegisters? || k.SubRegisters? || k.ShiftRightRegisters? || k.SubbRegisters? || k.ShiftLeftRegisters? || k.SkipRegisterNotEqualsRegister? {
      ArithmeticGuarded(k, op, rnd, s);
    } else {
      AddressGuarded(k, op, rnd, s);
    }
  }

  /** A step runs the one instruction whose matcher accepts the fetched opcode. */
  lemma StepRunsMatchingInstruction(s: State, rnd: RandomByte, k: D.Instruction)
    requires WellFormed(s) && Fetch(s).Ok? && D.Matches(k, Fetch(s).value)
    ensures Step(s, rnd) == Execute(k, Fetch(s).value, rnd, s)
  {
    D.LookupFinds(Fetch(s).value, k);
  }

  /** A fetched opcode that no matcher accepts changes nothing. */
  lemma StepIgnoresUnknownOpcode(s: State, rnd: RandomByte)
    requires WellFormed(s) && Fetch(s).Ok?
    requires forall k :: !D.Matches(k, Fetch(s).value)
    ensures Step(s, rnd) == Completed(s)
  {
    D.LookupMisses(Fetch(s).value);
  }

  /** The fetch raises unless PC and PC + 2 both address RAM; 0xFFE, from which the last
      two bytes would be fetched, is one of the addresses that raise. */
  lemma StepRaisesOutsideRam(s: State, rnd: RandomByte)
    requires WellFormed(s) && !(0 <= s.pc && s.pc + 2 < RamSize)
    ensures Step(s, rnd) == Raised(s)
  {
  }

  // Flow of control.

  /** 1nnn sets PC to nnn without the usual advance by 2. */
  lemma JumpEffect(s: State, op: Opcode)
    requires D.Matches(D.Jump, op)
    ensures Jump(s, op) == Completed(s.(pc := D.NNN(op)))
  {
  }

  /** 2nnn pushes PC and sets PC to nnn; it raises, changing nothing, on a full stack or
      a PC too wide for a stack entry. */
  lemma CallEffect(s: State, op: Opcode)
    requires D.Matches(D.Call, op)
    ensures Call(s, op) ==
      if |s.stack| < StackLevels && s.pc < 0x10000
      then Completed(s.(stack := s.stack + [s.pc], pc := D.NNN(op)))
      else Raised(s)
  {
  }

  /** 3xkk and 4xkk with the same x and kk: exactly one of them advances PC by 2, and
      neither changes anything else. */
  lemma SkipValueComplementary(s: State, op: Opcode)
    requires WellFormed(s) && D.Matches(D.SkipRegisterEqualsValue, op)
    ensures D.Matches(D.SkipRegisterNotEqualsValue, op ^ 0x7000)
    ensures D.X(op ^ 0x7000) == D.X(op) && D.KK(op ^ 0x7000) == D.KK(op)
    ensures var equal := s.v[D.X(op)] == D.KK(op);
      && SkipRegisterEqualsValue(s, op) == Completed(if equal then s.(pc := s.pc + 2) else s)
      && SkipRegisterNotEqualsValue(s, op ^ 0x7000) == Completed(if equal then s else s.(pc := s.pc + 2))
  {
  }

  /** 5xy0 and 9xy0 with the same x and y: exactly one of them advances PC by 2. 5xy0's
      matcher also accepts a non-zero last nibble. */
  lemma SkipRegisterComplementary(s: State, op: Opcode)
    requires WellFormed(s) && D.Matches(D.SkipRegisterEqualsRegister, op) && op & 0xF == 0
    ensures D.Matches(D.SkipRegisterNotEqualsRegister, op ^ 0xC000)
    ensures D.X(op ^ 0xC000) == D.X(op) && D.Y(op ^ 0xC000) == D.Y(op)
    ensures var equal := s.v[D.X(op)] == s.v[D.Y(op)];
      && SkipRegisterEqualsRegister(s, op) == Completed(if equal then s.(pc := s.pc + 2) else s)
      && SkipRegisterNotEqualsRegister(s, op ^ 0xC000) == Completed(if equal then s else s.(pc := s.pc + 2))
  {
  }

  /** 5xyN for any last nibble N, as the matcher admits it: PC advances by 2 exactly when
      Vx == Vy. */
  lemma SkipRegisterEqualsRegisterEffect(s: State, op: Opcode)
    requires WellFormed(s) && D.Matches(D.SkipRegisterEqualsRegister, op)
    ensures SkipRegisterEqualsRegister(s, op) ==
      Completed(if s.v[D.X(op)] == s.v[D.Y(op)] then s.(pc := s.pc + 2) else s)
  {
  }

  /** Bnnn adds nnn + V0 to PC instead of jumping to it. */
  lemma JumpToV0Effect(s: State, op: Opcode)
    requires WellFormed(s) && D.Matches(D.JumpToV0, op)
    ensures JumpToV0(s, op) == Completed(s.(pc := s.pc + D.NNN(op) + s.v[0]))
  {
  }

  /** 00E0 and 00EE change nothing modelled; Dxyn only advances PC. */
  lemma StubEffects(s: State, op: Opcode)
    requires D.Matches(D.Draw, op)
    ensures ClearDisplay(s, 0x00E0) == Completed(s) && ReturnFromSubroutine(s, 0x00EE) == Completed(s)
    ensures Draw(s, op) == Completed(s.(pc := s.pc + 2))
  {
  }

  // Register loads and arithmetic.

  /** 6xkk: Vx := kk. */
  lemma UpdateRegisterEffect(s: State, op: Opcode)
    requires WellFormed(s) && D.Matches(D.UpdateRegister, op)
    ensures UpdateRegister(s, op) == Completed(s.(v := s.v[D.X(op) := D.KK(op)], pc := s.pc + 2))
  {
  }

  /** 7xkk adds without wrapping or carry: it raises, changing nothing, when Vx + kk > 255. */
  lemma AddToRegisterEffect(s: State, op: Opcode)
    requires WellFormed(s) && D.Matches(D.AddToRegister, op)
    ensures var x := D.X(op); var sum := s.v[x] + D.KK(op);
      AddToRegister(s, op) ==
        if sum <= 255 then Completed(s.(v := s.v[x := sum], pc := s.pc + 2)) else Raised(s)
  {
  }

  /** 8xy0: Vx := Vy. */
  lemma CopyEffect(s: State, op: Opcode)
    requires Consistent(s) && D.Matches(D.Copy, op)
    ensures Copy(s, op) == Completed(s.(v := s.v[D.X(op) := s.v[D.Y(op)]], pc := s.pc + 2))
  {
  }

  /** 8xy1: Vx := Vx | Vy, which never raises on registers below 256: on bytes the
      result is a byte no smaller than either operand, and with a negative operand it
      is negative. */
  lemma OrEffect(s: State, op: Opcode)
    requires Consistent(s) && D.Matches(D.Or, op)
    ensures var x, vx, vy := D.X(op), s.v[D.X(op)], s.v[D.Y(op)]; var r := Bits.Or(vx, vy);
      && r < 256
      && (0 <= vx && 0 <= vy ==> vx <= r && vy <= r)
      && (vx < 0 || vy < 0 ==> r < 0)
      && Or(s, op) == Completed(s.(v := s.v[x := r], pc := s.pc + 2))
  {
    var vx, vy := s.v[D.X(op)], s.v[D.Y(op)];
    if 0 <= vx && 0 <= vy {
      Bits.Pow2Widths();
      Bits.OrBounded(vx, vy, 8);
    } else {
      Bits.OrNegative(vx, vy);
    }
  }

  /** 8xy2: Vx := Vx & Vy, which never raises on registers below 256: with a natural
      operand the result lies between 0 and that operand, and of two negatives it is
      negative. */
  lemma AndEffect(s: State, op: Opcode)
    requires Consistent(s) && D.Matches(D.And, op)
    ensures var x, vx, vy := D.X(op), s.v[D.X(op)], s.v[D.Y(op)]; var r := Bits.And(vx, vy);
      && r < 256
      && (0 <= vx ==> 0 <= r <= vx)
      && (0 <= vy ==> 0 <= r <= vy)
      && (vx < 0 && vy < 0 ==> r < 0)
      && And(s, op) == Completed(s.(v := s.v[x := r], pc := s.pc + 2))
  {
    var vx, vy := s.v[D.X(op)], s.v[D.Y(op)];
    if 0 <= vx || 0 <= vy {
      Bits.AndNatural(vx, vy);
    } else {
      Bits.AndNegative(vx, vy);
    }
  }

  /** 8xy3: Vx := Vx ^ Vy when that is below 256, and otherwise it raises, changing
      nothing. The result is a byte on byte registers, negative when exactly one operand
      is, and natural but possibly too wide when both are negative. */
  lemma XorEffect(s: State, op: Opcode)
    requires Consistent(s) && D.Matches(D.Xor, op)
    ensures var x, vx, vy := D.X(op), s.v[D.X(op)], s.v[D.Y(op)]; var r := Bits.Xor(vx, vy);
      && (0 <= vx && 0 <= vy ==> 0 <= r < 256)
      && (r < 0 <==> (vx < 0) != (vy < 0))
      && Xor(s, op) == if r < 256 then Completed(s.(v := s.v[x := r], pc := s.pc + 2)) else Raised(s)
  {
    var vx, vy := s.v[D.X(op)], s.v[D.Y(op)];
    Bits.XorSign(vx, vy);
    if 0 <= vx && 0 <= vy {
      Bits.Pow2Widths();
      Bits.XorBounded(vx, vy, 8);
    }
  }

  /** -1 ^ -510 is 509: with V0 = -1 and V1 = -510, values 8xy5 and 8xy7 can leave
      behind, 8013 raises. */
  lemma XorRaisesOnNegatives(s: State)
    requires Consistent(s) && s.v[0] == -1 && s.v[1] == -510
    ensures Bits.Xor(-1, -510) == 509
    ensures Xor(s, 0x8013) == Raised(s)
  {
    Bits.XorMinusOne(-510);
    assert D.Matches(D.Xor, 0x8013) && D.X(0x8013) == 0 && D.Y(0x8013) == 1;
    XorEffect(s, 0x8013);
  }

  /** 8xy4: Vx := (Vx + Vy) mod 256, then VF := 1 exactly when the sum exceeds 255;
      without a carry VF keeps its value (or the sum's low byte, when x is F). Never raises. */
  lemma SumRegistersEffect(s: State, op: Opcode)
    requires WellFormed(s) && D.Matches(D.SumRegisters, op)
    ensures var x, sum := D.X(op), s.v[D.X(op)] + s.v[D.Y(op)];
      SumRegisters(s, op) == Completed(s.(
        v := if sum > 255 then s.v[x := sum % 256][Flag := 1] else s.v[x := sum % 256],
        pc := s.pc + 2))
  {
    var sum := s.v[D.X(op)] + s.v[D.Y(op)];
    Bits.AndLowByte(sum);
    Bits.ShrPositive(sum, 8);
    Bits.Pow2Widths();
  }

  /** 8xy5: VF := 1 when Vx > Vy (VF is never cleared), then Vx := Vx - Vy with no
      wrapping, so the difference can be negative; it raises when the difference exceeds
      255, keeping the flag already written. */
  lemma SubRegistersEffect(s: State, op: Opcode)
    requires WellFormed(s) && D.Matches(D.SubRegisters, op)
    ensures var x, vx, vy := D.X(op), s.v[D.X(op)], s.v[D.Y(op)];
      var flagged := if vx > vy then s.(v := s.v[Flag := 1]) else s;
      SubRegisters(s, op) ==
        if vx - vy <= 255 then Completed(flagged.(v := flagged.v[x := vx - vy], pc := s.pc + 2))
        else Raised(flagged)
  {
  }

  /** 8xy7: as 8xy5 with the operands swapped, writing Vy - Vx into Vx. */
  lemma SubbRegistersEffect(s: State, op: Opcode)
    requires WellFormed(s) && D.Matches(D.SubbRegisters, op)
    ensures var x, vx, vy := D.X(op), s.v[D.X(op)], s.v[D.Y(op)];
      var flagged := if vy > vx then s.(v := s.v[Flag := 1]) else s;
      SubbRegisters(s, op) ==
        if vy - vx <= 255 then Completed(flagged.(v := flagged.v[x := vy - vx], pc := s.pc + 2))
        else Raised(flagged)
  {
  }

  /** On byte registers, 8xy5 with Vx < Vy completes with a negative Vx. */
  lemma SubtractionGoesNegative(s: State, op: Opcode)
    requires WellFormed(s) && ByteRegisters(s) && D.Matches(D.SubRegisters, op)
    requires s.v[D.X(op)] < s.v[D.Y(op)]
    ensures SubRegisters(s, op).Completed? && SubRegisters(s, op).state.v[D.X(op)] < 0
  {
    SubRegistersEffect(s, op);
  }

  /** 8xy4, 8xy5 and 8xy7 only ever set VF to 1: when x is not F, VF ends up either 1 or
      what it was. */
  lemma FlagNeverCleared(s: State, op: Opcode)
    requires WellFormed(s) && D.X(op) != Flag
    ensures var r := SumRegisters(s, op).state; |r.v| == RegisterCount && r.v[Flag] in {1, s.v[Flag]}
    ensures var r := SubRegisters(s, op).state; |r.v| == RegisterCount && r.v[Flag] in {1, s.v[Flag]}
    ensures var r := SubbRegisters(s, op).state; |r.v| == RegisterCount && r.v[Flag] in {1, s.v[Flag]}
  {
    if D.Matches(D.SumRegisters, op) {
      SumRegistersEffect(s, op);
    }
    if D.Matches(D.SubRegisters, op) {
      SubRegistersEffect(s, op);
    }
    if D.Matches(D.SubbRegisters, op) {
      SubbRegistersEffect(s, op);
    }
  }

  /** 8xy6: VF := Vy mod 2, then Vx := Vy / 2 (rounding down, as Ruby's `>>`). */
  lemma ShiftRightEffect(s: State, op: Opcode)
    requires Consistent(s) && D.Matches(D.ShiftRightRegisters, op)
    ensures var vy := s.v[D.Y(op)];
      ShiftRightRegisters(s, op) ==
        Completed(s.(v := s.v[Flag := vy % 2][D.X(op) := vy / 2], pc := s.pc + 2))
  {
    var vy := s.v[D.Y(op)];
    Bits.AndLowBit(vy);
  }

  /** 8xyE: VF := bit 7 of Vy, then Vx := 2 * Vy unmasked, which raises, keeping the flag
      already written, when 2 * Vy exceeds 255. */
  lemma ShiftLeftEffect(s: State, op: Opcode)
    requires WellFormed(s) && D.Matches(D.ShiftLeftRegisters, op)
    ensures var vy := s.v[D.Y(op)];
      var flagged := s.(v := s.v[Flag := if vy % 256 >= 128 then 1 else 0]);
      ShiftLeftRegisters(s, op) ==
        if 2 * vy <= 255 then Completed(flagged.(v := flagged.v[D.X(op) := 2 * vy], pc := s.pc + 2))
        else Raised(flagged)
  {
    Bits.AndBit7(s.v[D.Y(op)]);
  }

  /** For a byte Vy, 8xyE raises exactly when bit 7 of Vy is set. */
  lemma ShiftLeftRaisesOnBit7(s: State, op: Opcode)
    requires WellFormed(s) && ByteRegisters(s) && D.Matches(D.ShiftLeftRegisters, op)
    ensures ShiftLeftRegisters(s, op).Raised? <==> s.v[D.Y(op)] >= 0x80
  {
    ShiftLeftEffect(s, op);
  }

  /** Cxkk: Vx := kk & rnd, a byte no larger than kk or rnd. */
  lemma RandToRegisterEffect(s: State, op: Opcode, rnd: RandomByte)
    requires WellFormed(s) && D.Matches(D.RandToRegister, op)
    ensures var r := Bits.And(D.KK(op), rnd);
      && 0 <= r <= D.KK(op) && r <= rnd
      && RandToRegister(s, op, rnd) == Completed(s.(v := s.v[D.X(op) := r], pc := s.pc + 2))
  {
    Bits.Pow2Widths();
    Bits.AndBounded(D.KK(op), rnd, 8);
  }

  // The memory address register and RAM.

  /** Annn: I := nnn. */
  lemma SetMemoryAddressRegisterEffect(s: State, op: Opcode)
    requires D.Matches(D.SetMemoryAddressRegister, op)
    ensures SetMemoryAddressRegister(s, op) == Completed(s.(i := D.NNN(op), pc := s.pc + 2))
  {
  }

  /** Fx29: I := 5 * Vx; for a digit Vx < 16 this is where its 5-byte glyph starts in the
      font at 0..79. */
  lemma CharacterEffect(s: State, op: Opcode)
    requires Consistent(s) && D.Matches(D.SetMemoryAddressRegisterToCharacter, op)
    ensures var vx := s.v[D.X(op)];
      SetMemoryAddressRegisterToCharacter(s, op) == Completed(s.(i := 5 * vx, pc := s.pc + 2))
    ensures 0 <= s.v[D.X(op)] < 16 ==> 0 <= 5 * s.v[D.X(op)] && 5 * s.v[D.X(op)] + 5 <= 80
  {
  }

  /** The three decimal digits Fx33 writes: each below 10, and together they spell v. */
  lemma DecimalDigits(v: int)
    requires 0 <= v < 1000
    ensures 0 <= v / 100 < 10 && 0 <= (v / 10) % 10 < 10 && 0 <= (v % 100) % 10 < 10
    ensures 100 * (v / 100) + 10 * ((v / 10) % 10) + (v % 100) % 10 == v
  {
    var h, t, u := v / 100, (v / 10) % 10, (v % 100) % 10;
    assert v == 100 * h + v % 100;
    assert v % 100 == 10 * (v % 100 / 10) + u;
    assert v % 100 / 10 == t;
  }

  /** Fx33 on a register in 0..255 with I..I+2 in RAM: the hundreds, tens and units of Vx
      go to RAM[I], RAM[I+1], RAM[I+2], three decimal digits that spell Vx. */
  lemma BcdEffect(s: State, op: Opcode)
    requires Consistent(s) && D.Matches(D.UpdateRamWithRegisterAsBCDRepresentation, op)
    requires 0 <= s.v[D.X(op)] && 0 <= s.i && s.i + 2 < RamSize
    ensures var r, a, vx := UpdateRamWithRegisterAsBCDRepresentation(s, op), s.i, s.v[D.X(op)];
      && r.Completed?
      && r.state == s.(ram := s.ram[a := vx / 100][a + 1 := (vx / 10) % 10][a + 2 := vx % 10],
                       pc := s.pc + 2)
      && 100 * r.state.ram[a] + 10 * r.state.ram[a + 1] + r.state.ram[a + 2] == vx
      && r.state.ram[a] < 10 && r.state.ram[a + 1] < 10 && r.state.ram[a + 2] < 10
  {
    var vx, a := s.v[D.X(op)], s.i;
    DecimalDigits(vx);
    var d0, d1, d2 := vx / 100, (vx / 10) % 10, (vx % 100) % 10;
    assert d2 == vx % 10;
    var s1 := s.(ram := s.ram[a := d0]);
    var s2 := s1.(ram := s1.ram[a + 1 := d1]);
    var s3 := s2.(ram := s2.ram[a + 2 := d2]);
    assert WriteRam(s, a, d0) == Completed(s1);
    assert WriteRam(s1, a + 1, d1) == Completed(s2);
    assert WriteRam(s2, a + 2, d2) == Completed(s3);
    assert UpdateRamWithRegisterAsBCDRepresentation(s, op) == Completed(s3.(pc := s.pc + 2));
  }

  /** Fx33 raises when I..I+2 is not inside RAM, leaving the registers, I and PC as they
      were (the digits written before the failing write stay written). */
  lemma BcdRaises(s: State, op: Opcode)
    requires Consistent(s) && D.Matches(D.UpdateRamWithRegisterAsBCDRepresentation, op)
    requires s.i < 0 || s.i + 2 >= RamSize
    ensures var r := UpdateRamWithRegisterAsBCDRepresentation(s, op);
      r.Raised? && r.state.v == s.v && r.state.i == s.i && r.state.pc == s.pc
  {
  }

  /** Fx33 on a negative Vx raises before writing anything: the hundreds digit
      `Vx / 100`, rounded down, is negative, and `Memory#write` rejects it. */
  lemma BcdRaisesOnNegative(s: State, op: Opcode)
    requires Consistent(s) && D.Matches(D.UpdateRamWithRegisterAsBCDRepresentation, op)
    requires s.v[D.X(op)] < 0
    ensures UpdateRamWithRegisterAsBCDRepresentation(s, op) == Raised(s)
  {
  }

  /** The `upto` loop of Fx65 from pass `index` on, when every read fits: V[index..last]
      takes RAM[I..I+last-index], the other registers keep their values, and I moves past
      the bytes read. */
  lemma {:induction false} LoadRegistersEffect(s: State, index: nat, last: nat)
    requires WellFormed(s) && index <= last + 1 && last < RegisterCount
    requires 0 <= s.i && s.i + last + 1 - index < RamSize
    ensures var r := LoadRegisters(s, index, last);
      && r.Completed?
      && r.state == s.(v := r.state.v, i := s.i + last + 1 - index)
      && |r.state.v| == RegisterCount
      && (forall j :: 0 <= j < RegisterCount ==>
            r.state.v[j] == if index <= j <= last then s.ram[s.i + j - index] else s.v[j])
    decreases last + 1 - index
  {
    if index <= last {
      assert ReadByte(s, s.i) == Ok(s.ram[s.i]);
      var s1 := s.(v := s.v[index := s.ram[s.i]]);
      assert SetRegister(s, index, s.ram[s.i]) == Completed(s1);
      var s2 := s1.(i := s.i + 1);
      assert SetI(s1, s.i + 1) == Completed(s2);
      assert LoadRegisters(s, index, last) == LoadRegisters(s2, index + 1, last);
      LoadRegistersEffect(s2, index + 1, last);
    }
  }

  /** The loop raises as soon as a pass would read or set I at or past the end of RAM. */
  lemma {:induction false} LoadRegistersRaises(s: State, index: nat, last: nat)
    requires WellFormed(s) && index <= last && last < RegisterCount
    requires s.i < 0 || s.i + last + 1 - index >= RamSize
    ensures LoadRegisters(s, index, last).Raised?
    decreases last + 1 - index
  {
    if 0 <= s.i && s.i + 1 < RamSize {
      var s2 := s.(v := s.v[index := s.ram[s.i]], i := s.i + 1);
      assert LoadRegisters(s, index, last) == LoadRegisters(s2, index + 1, last);
      LoadRegistersRaises(s2, index + 1, last);
    }
  }

  /** Fx65 when every read fits: V0..Vx := RAM[I..I+x], higher registers unchanged,
      I := I + x + 1, PC += 2. */
  lemma BatchLoadEffect(s: State, op: Opcode)
    requires WellFormed(s) && D.Matches(D.BatchLoadRegisterWithRamValues, op)
    requires 0 <= s.i && s.i + D.X(op) + 1 < RamSize
    ensures var r, x := BatchLoadRegisterWithRamValues(s, op), D.X(op);
      && r.Completed?
      && r.state == s.(v := r.state.v, i := s.i + x + 1, pc := s.pc + 2)
      && |r.state.v| == RegisterCount
      && (forall j :: 0 <= j <= x ==> r.state.v[j] == s.ram[s.i + j])
      && (forall j :: x < j < RegisterCount ==> r.state.v[j] == s.v[j])
  {
    var x := D.X(op);
    LoadRegistersEffect(s, 0, x);
    var t := LoadRegisters(s, 0, x).state;
    assert BatchLoadRegisterWithRamValues(s, op) == Completed(t.(pc := s.pc + 2));
  }

  /** Fx65 raises when a read would pass the end of RAM, each read needing I + 1 < 4096;
      PC and RAM are then as they were. */
  lemma BatchLoadRaises(s: State, op: Opcode)
    requires WellFormed(s) && D.Matches(D.BatchLoadRegisterWithRamValues, op)
    requires s.i < 0 || s.i + D.X(op) + 1 >= RamSize
    ensures var r := BatchLoadRegisterWithRamValues(s, op);
      r.Raised? && r.state.pc == s.pc && r.state.ram == s.ram
  {
    LoadRegistersRaises(s, 0, D.X(op));
  }
}
