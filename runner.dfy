/** `ProgramRunner` and the `execute` methods of the instructions, on the machine's mutable
    parts: the RAM, the register bank, PC, I and the stack. Each instruction object of the
    source holds references to the parts it touches; here each is a method of the runner,
    which owns all of them, and the `modifies` clause of a method names exactly the parts
    the instruction was constructed with and writes.

    Every method is proved against its function in module Semantics: what it reports and
    the state it leaves are those of the function applied to the state before the call. */
module Runner {
  import opened Wrappers
  import Bits
  import D = Decoding
  import S = Semantics
  import Memories
  import CallStack
  import RegisterFile

  type Opcode = D.Opcode

  /** How a method ended (`ok` false for an OverflowError), with the state it left. */
  function Ended(ok: bool, s: S.State): S.Outcome
  {
    if ok then S.Completed(s) else S.Raised(s)
  }

  /** The word `Memory#read` returns for two bytes at PC fits an opcode. */
  lemma FetchedWord(s: S.State)
    requires S.WellFormed(s)
    ensures Memories.ReadCells(s.ram, s.pc, 2).Ok? ==> 0 <= Memories.ReadCells(s.ram, s.pc, 2).value < 0x10000
  {
  }

  /** The three ways a pass of the `start` loop goes: the fetch overflows and raises, no
      instruction accepts the word and nothing changes, or the instruction found runs. */
  lemma StepCases(s: S.State, rnd: S.RandomByte, code: Result<int>, found: Option<D.Instruction>, ok: bool, t: S.State)
    requires S.WellFormed(s) && code == Memories.ReadCells(s.ram, s.pc, 2)
    requires code.Overflow? ==> !ok && t == s
    requires code.Ok? ==> 0 <= code.value < 0x10000 && found == D.Lookup(code.value as Opcode)
    requires code.Ok? && found.None? ==> ok && t == s
    requires code.Ok? && found.Some? ==> Ended(ok, t) == S.Execute(found.value, code.value as Opcode, rnd, s)
    ensures Ended(ok, t) == S.Step(s, rnd)
  {
    S.FetchAgrees(s);
  }

  // Each instruction of two or three updates is the composition of those updates, the
  // first failing one ending it: the methods below record the state after each update
  // (ok_i, t_i) and these lemmas put the pieces together.

  lemma SumRegistersSteps(s: S.State, op: Opcode, ok1: bool, t1: S.State, ok2: bool, t2: S.State)
    requires S.WellFormed(s) && D.Matches(D.SumRegisters, op)
    requires Ended(ok1, t1) == S.SetRegister(s, D.X(op), Bits.And(s.v[D.X(op)] + s.v[D.Y(op)], 0xFF))
    requires ok1 ==> Ended(ok2, t2) == S.SetFlagWhen(t1, Bits.Shr(s.v[D.X(op)] + s.v[D.Y(op)], 8) > 0)
    ensures S.SumRegisters(s, op)
         == if !ok1 then Ended(ok1, t1) else if !ok2 then Ended(ok2, t2) else S.Completed(S.AddPc(t2, 2))
  {
  }

  lemma SubRegistersSteps(s: S.State, op: Opcode, ok1: bool, t1: S.State, ok2: bool, t2: S.State)
    requires S.WellFormed(s) && D.Matches(D.SubRegisters, op)
    requires Ended(ok1, t1) == S.SetFlagWhen(s, s.v[D.X(op)] > s.v[D.Y(op)])
    requires ok1 ==> Ended(ok2, t2) == S.SetRegister(t1, D.X(op), s.v[D.X(op)] - s.v[D.Y(op)])
    ensures S.SubRegisters(s, op)
         == if !ok1 then Ended(ok1, t1) else if !ok2 then Ended(ok2, t2) else S.Completed(S.AddPc(t2, 2))
  {
  }

  lemma ShiftRightRegistersSteps(s: S.State, op: Opcode, ok1: bool, t1: S.State, ok2: bool, t2: S.State)
    requires S.WellFormed(s) && D.Matches(D.ShiftRightRegisters, op)
    requires Ended(ok1, t1) == S.SetRegister(s, S.Flag, Bits.And(s.v[D.Y(op)], 1))
    requires ok1 ==> Ended(ok2, t2) == S.SetRegister(t1, D.X(op), Bits.Shr(s.v[D.Y(op)], 1))
    ensures S.ShiftRightRegisters(s, op)
         == if !ok1 then Ended(ok1, t1) else if !ok2 then Ended(ok2, t2) else S.Completed(S.AddPc(t2, 2))
  {
  }

  lemma SubbRegistersSteps(s: S.State, op: Opcode, ok1: bool, t1: S.State, ok2: bool, t2: S.State)
    requires S.WellFormed(s) && D.Matches(D.SubbRegisters, op)
    requires Ended(ok1, t1) == S.SetFlagWhen(s, s.v[D.Y(op)] > s.v[D.X(op)])
    requires ok1 ==> Ended(ok2, t2) == S.SetRegister(t1, D.X(op), s.v[D.Y(op)] - s.v[D.X(op)])
    ensures S.SubbRegisters(s, op)
         == if !ok1 then Ended(ok1, t1) else if !ok2 then Ended(ok2, t2) else S.Completed(S.AddPc(t2, 2))
  {
  }

  lemma ShiftLeftRegistersSteps(s: S.State, op: Opcode, ok1: bool, t1: S.State, ok2: bool, t2: S.State)
    requires S.WellFormed(s) && D.Matches(D.ShiftLeftRegisters, op)
    requires Ended(ok1, t1) == S.SetRegister(s, S.Flag, if Bits.And(s.v[D.Y(op)], 0x80) != 0 then 1 else 0)
    requires ok1 ==> Ended(ok2, t2) == S.SetRegister(t1, D.X(op), Bits.Shl(s.v[D.Y(op)], 1))
    ensures S.ShiftLeftRegisters(s, op)
         == if !ok1 then Ended(ok1, t1) else if !ok2 then Ended(ok2, t2) else S.Completed(S.AddPc(t2, 2))
  {
  }

  lemma BcdSteps(s: S.State, op: Opcode, ok1: bool, t1: S.State, ok2: bool, t2: S.State, ok3: bool, t3: S.State)
    requires S.WellFormed(s) && D.Matches(D.UpdateRamWithRegisterAsBCDRepresentation, op)
    requires Ended(ok1, t1) == S.WriteRam(s, s.i, s.v[D.X(op)] / 100)
    requires ok1 ==> Ended(ok2, t2) == S.WriteRam(t1, s.i + 1, (s.v[D.X(op)] / 10) % 10)
    requires ok1 && ok2 ==> Ended(ok3, t3) == S.WriteRam(t2, s.i + 2, (s.v[D.X(op)] % 100) % 10)
    ensures S.UpdateRamWithRegisterAsBCDRepresentation(s, op)
         == if !ok1 then Ended(ok1, t1) else if !ok2 then Ended(ok2, t2)
            else if !ok3 then Ended(ok3, t3) else S.Completed(S.AddPc(t3, 2))
  {
  }

  class ProgramRunner {
    const ram: Memories.Memory
    const registers: RegisterFile.Registers
    const pc: RegisterFile.Register
    const ma: RegisterFile.Register
    const stack: CallStack.Stack

    /** The parts as the emulator script builds them: a 4096-byte RAM, sixteen 8-bit
        registers, a 16-bit PC, a 12-bit I and a stack of 16 levels of 16 bits, with no
        two of them sharing storage. */
    ghost predicate Valid()
      reads this, ram, ram.buffer, registers, pc, ma, stack
    {
      && ram.Valid() && ram.buffer.Length == S.RamSize && ram.itemSizeInBits == 8
      && registers.data.Length == S.RegisterCount && registers.sizeInBits == S.RegisterWidth
      && ram.buffer != registers.data
      && pc != ma && pc.sizeInBits == S.PcWidth && ma.sizeInBits == S.IWidth
      && stack.levels == S.StackLevels && stack.itemSizeInBits == S.StackWidth
    }

    /** The machine state the parts hold. */
    ghost function Abstract(): S.State
      reads this, ram, ram.buffer, registers, registers.data, pc, ma, stack
    {
      S.State(ram.buffer[..], registers.data[..], pc.data, ma.data, stack.addresses)
    }

    /** `ProgramRunner.new`: keeps the parts it is given. */
    constructor (ram: Memories.Memory, pc: RegisterFile.Register, registers: RegisterFile.Registers,
                 ma: RegisterFile.Register, stack: CallStack.Stack)
      ensures this.ram == ram && this.pc == pc && this.registers == registers
      ensures this.ma == ma && this.stack == stack
    {
      this.ram := ram;
      this.pc := pc;
      this.registers := registers;
      this.ma := ma;
      this.stack := stack;
    }

    lemma WellFormedAbstract()
      requires Valid()
      ensures S.WellFormed(Abstract())
    {
    }

    // The primitive updates on the parts, each proved against its counterpart in Semantics.
    // A register is read as `registers.data[index]`, `@registers.read_register(index).read`.

    /** `@registers.update_register(index, data)`. */
    method SetRegister(index: int, data: int) returns (ok: bool)
      requires Valid()
      modifies registers.data
      ensures Valid()
      ensures Ended(ok, Abstract()) == S.SetRegister(old(Abstract()), index, data)
    {
      S.SetRegisterAgrees(Abstract(), index, data);
      ok := registers.UpdateRegister(index, data);
    }

    /** `@registers.update_register(0xF, 1) if cond`. */
    method SetFlagWhen(cond: bool) returns (ok: bool)
      requires Valid()
      modifies registers.data
      ensures Valid()
      ensures Ended(ok, Abstract()) == S.SetFlagWhen(old(Abstract()), cond)
    {
      ok := true;
      if cond {
        ok := SetRegister(S.Flag, 1);
      }
    }

    /** `@pc.update(data)`. */
    method SetPc(data: int) returns (ok: bool)
      requires Valid()
      modifies pc
      ensures Valid()
      ensures Ended(ok, Abstract()) == S.SetPc(old(Abstract()), data)
    {
      S.SetPcAndIAgree(Abstract(), data);
      ok := pc.Update(data);
    }

    /** `@ma.update(data)`. */
    method SetI(data: int) returns (ok: bool)
      requires Valid()
      modifies ma
      ensures Valid()
      ensures Ended(ok, Abstract()) == S.SetI(old(Abstract()), data)
    {
      S.SetPcAndIAgree(Abstract(), data);
      ok := ma.Update(data);
    }

    /** `@pc.add(d)`. */
    method AddPc(d: int)
      requires Valid()
      modifies pc
      ensures Valid()
      ensures Abstract() == S.AddPc(old(Abstract()), d)
    {
      pc.Add(d);
    }

    /** `@ram.write(position, data)`. */
    method WriteRam(position: int, data: int) returns (ok: bool)
      requires Valid()
      modifies ram.buffer
      ensures Valid()
      ensures Ended(ok, Abstract()) == S.WriteRam(old(Abstract()), position, data)
    {
      S.WriteRamAgrees(Abstract(), position, data);
      ok := ram.Write(position, data);
    }

    /** `@stack.push(data)`. */
    method PushStack(data: int) returns (ok: bool)
      requires Valid()
      modifies stack
      ensures Valid()
      ensures Ended(ok, Abstract()) == S.PushStack(old(Abstract()), data)
    {
      S.PushStackAgrees(Abstract(), data);
      ok := stack.Push(data);
    }

    /** `@ram.read(register: @ma)`: one byte at I. */
    method ReadByte() returns (r: Result<int>)
      requires Valid()
      ensures r == S.ReadByte(Abstract(), Abstract().i)
    {
      S.ReadByteAgrees(Abstract(), ma.data);
      r := ram.Read(ma.data, 1);
    }

    /** 00E0: clears the display, which is not part of this model. */
    method ClearDisplay(op: Opcode) returns (ok: bool)
      requires Valid()
      ensures Ended(ok, Abstract()) == S.ClearDisplay(Abstract(), op)
    {
      ok := true;
    }

    /** 00EE: only prints. */
    method ReturnFromSubroutine(op: Opcode) returns (ok: bool)
      requires Valid()
      ensures Ended(ok, Abstract()) == S.ReturnFromSubroutine(Abstract(), op)
    {
      ok := true;
    }

    /** 1nnn. */
    method Jump(op: Opcode) returns (ok: bool)
      requires Valid()
      modifies pc
      ensures Valid()
      ensures Ended(ok, Abstract()) == S.Jump(old(Abstract()), op)
    {
      if !D.Matches(D.Jump, op) {
        return true;
      }
      ok := SetPc(D.NNN(op));
    }

    /** 2nnn. */
    method Call(op: Opcode) returns (ok: bool)
      requires Valid()
      modifies stack, pc
      ensures Valid()
      ensures Ended(ok, Abstract()) == S.Call(old(Abstract()), op)
    {
      if !D.Matches(D.Call, op) {
        return true;
      }
      ok := PushStack(pc.data);
      if ok {
        ok := SetPc(D.NNN(op));
      }
    }

    /** 3xkk. */
    method SkipRegisterEqualsValue(op: Opcode) returns (ok: bool)
      requires Valid()
      modifies pc
      ensures Valid()
      ensures Ended(ok, Abstract()) == S.SkipRegisterEqualsValue(old(Abstract()), op)
    {
      if !D.Matches(D.SkipRegisterEqualsValue, op) {
        return true;
      }
      ok := true;
      if registers.data[D.X(op)] == D.KK(op) {
        AddPc(2);
      }
    }

    /** 4xkk. */
    method SkipRegisterNotEqualsValue(op: Opcode) returns (ok: bool)
      requires Valid()
      modifies pc
      ensures Valid()
      ensures Ended(ok, Abstract()) == S.SkipRegisterNotEqualsValue(old(Abstract()), op)
    {
      if !D.Matches(D.SkipRegisterNotEqualsValue, op) {
        return true;
      }
      ok := true;
      if registers.data[D.X(op)] != D.KK(op) {
        AddPc(2);
      }
    }

    /** 5xy0. */
    method SkipRegisterEqualsRegister(op: Opcode) returns (ok: bool)
      requires Valid()
      modifies pc
      ensures Valid()
      ensures Ended(ok, Abstract()) == S.SkipRegisterEqualsRegister(old(Abstract()), op)
    {
      if !D.Matches(D.SkipRegisterEqualsRegister, op) {
        return true;
      }
      ok := true;
      if registers.data[D.X(op)] == registers.data[D.Y(op)] {
        AddPc(2);
      }
    }

    /** 6xkk. */
    method UpdateRegister(op: Opcode) returns (ok: bool)
      requires Valid()
      modifies registers.data, pc
      ensures Valid()
      ensures Ended(ok, Abstract()) == S.UpdateRegister(old(Abstract()), op)
    {
      if !D.Matches(D.UpdateRegister, op) {
        return true;
      }
      ok := SetRegister(D.X(op), D.KK(op));
      if ok {
        AddPc(2);
      }
    }

    /** 7xkk. */
    method AddToRegister(op: Opcode) returns (ok: bool)
      requires Valid()
      modifies registers.data, pc
      ensures Valid()
      ensures Ended(ok, Abstract()) == S.AddToRegister(old(Abstract()), op)
    {
      if !D.Matches(D.AddToRegister, op) {
        return true;
      }
      ok := SetRegister(D.X(op), D.KK(op) + registers.data[D.X(op)]);
      if ok {
        AddPc(2);
      }
    }

    /** 8xy0. */
    method Copy(op: Opcode) returns (ok: bool)
      requires Valid()
      modifies registers.data, pc
      ensures Valid()
      ensures Ended(ok, Abstract()) == S.Copy(old(Abstract()), op)
    {
      if !D.Matches(D.Copy, op) {
        return true;
      }
      ok := SetRegister(D.X(op), registers.data[D.Y(op)]);
      if ok {
        AddPc(2);
      }
    }

    /** 8xy1. */
    method Or(op: Opcode) returns (ok: bool)
      requires Valid()
      modifies registers.data, pc
      ensures Valid()
      ensures Ended(ok, Abstract()) == S.Or(old(Abstract()), op)
    {
      if !D.Matches(D.Or, op) {
        return true;
      }
      ok := SetRegister(D.X(op), Bits.Or(registers.data[D.X(op)], registers.data[D.Y(op)]));
      if ok {
        AddPc(2);
      }
    }

    /** 8xy2. */
    method And(op: Opcode) returns (ok: bool)
      requires Valid()
      modifies registers.data, pc
      ensures Valid()
      ensures Ended(ok, Abstract()) == S.And(old(Abstract()), op)
    {
      if !D.Matches(D.And, op) {
        return true;
      }
      ok := SetRegister(D.X(op), Bits.And(registers.data[D.X(op)], registers.data[D.Y(op)]));
      if ok {
        AddPc(2);
      }
    }

    /** 8xy3. */
    method Xor(op: Opcode) returns (ok: bool)
      requires Valid()
      modifies registers.data, pc
      ensures Valid()
      ensures Ended(ok, Abstract()) == S.Xor(old(Abstract()), op)
    {
      if !D.Matches(D.Xor, op) {
        return true;
      }
      ok := SetRegister(D.X(op), Bits.Xor(registers.data[D.X(op)], registers.data[D.Y(op)]));
      if ok {
        AddPc(2);
      }
    }

    /** 8xy4. */
    method SumRegisters(op: Opcode) returns (ok: bool)
      requires Valid()
      modifies registers.data, pc
      ensures Valid()
      ensures Ended(ok, Abstract()) == S.SumRegisters(old(Abstract()), op)
    {
      if !D.Matches(D.SumRegisters, op) {
        return true;
      }
      ghost var s := Abstract();
      var x := D.X(op);
      var sum := registers.data[x] + registers.data[D.Y(op)];
      var ok1 := SetRegister(x, Bits.And(sum, 0xFF));
      ghost var t1 := Abstract();
      var ok2 := false;
      if ok1 {
        ok2 := SetFlagWhen(Bits.Shr(sum, 8) > 0);
      }
      ghost var t2 := Abstract();
      ok := ok1 && ok2;
      if ok {
        AddPc(2);
      }
      SumRegistersSteps(s, op, ok1, t1, ok2, t2);
    }

    /** 8xy5. */
    method SubRegisters(op: Opcode) returns (ok: bool)
      requires Valid()
      modifies registers.data, pc
      ensures Valid()
      ensures Ended(ok, Abstract()) == S.SubRegisters(old(Abstract()), op)
    {
      if !D.Matches(D.SubRegisters, op) {
        return true;
      }
      ghost var s := Abstract();
      var x := D.X(op);
      var vx, vy := registers.data[x], registers.data[D.Y(op)];
      var ok1 := SetFlagWhen(vx > vy);
      ghost var t1 := Abstract();
      var ok2 := false;
      if ok1 {
        ok2 := SetRegister(x, vx - vy);
      }
      ghost var t2 := Abstract();
      ok := ok1 && ok2;
      if ok {
        AddPc(2);
      }
      SubRegistersSteps(s, op, ok1, t1, ok2, t2);
    }

    /** 8xy6. */
    method ShiftRightRegisters(op: Opcode) returns (ok: bool)
      requires Valid()
      modifies registers.data, pc
      ensures Valid()
      ensures Ended(ok, Abstract()) == S.ShiftRightRegisters(old(Abstract()), op)
    {
      if !D.Matches(D.ShiftRightRegisters, op) {
        return true;
      }
      ghost var s := Abstract();
      var vy := registers.data[D.Y(op)];
      var ok1 := SetRegister(S.Flag, Bits.And(vy, 1));
      ghost var t1 := Abstract();
      var ok2 := false;
      if ok1 {
        ok2 := SetRegister(D.X(op), Bits.Shr(vy, 1));
      }
      ghost var t2 := Abstract();
      ok := ok1 && ok2;
      if ok {
        AddPc(2);
      }
      ShiftRightRegistersSteps(s, op, ok1, t1, ok2, t2);
    }

    /** 8xy7. */
    method SubbRegisters(op: Opcode) returns (ok: bool)
      requires Valid()
      modifies registers.data, pc
      ensures Valid()
      ensures Ended(ok, Abstract()) == S.SubbRegisters(old(Abstract()), op)
    {
      if !D.Matches(D.SubbRegisters, op) {
        return true;
      }
      ghost var s := Abstract();
      var x := D.X(op);
      var vx, vy := registers.data[x], registers.data[D.Y(op)];
      var ok1 := SetFlagWhen(vy > vx);
      ghost var t1 := Abstract();
      var ok2 := false;
      if ok1 {
        ok2 := SetRegister(x, vy - vx);
      }
      ghost var t2 := Abstract();
      ok := ok1 && ok2;
      if ok {
        AddPc(2);
      }
      SubbRegistersSteps(s, op, ok1, t1, ok2, t2);
    }

    /** 8xyE. */
    method ShiftLeftRegisters(op: Opcode) returns (ok: bool)
      requires Valid()
      modifies registers.data, pc
      ensures Valid()
      ensures Ended(ok, Abstract()) == S.ShiftLeftRegisters(old(Abstract()), op)
    {
      if !D.Matches(D.ShiftLeftRegisters, op) {
        return true;
      }
      ghost var s := Abstract();
      var vy := registers.data[D.Y(op)];
      var ok1 := SetRegister(S.Flag, if Bits.And(vy, 0x80) != 0 then 1 else 0);
      ghost var t1 := Abstract();
      var ok2 := false;
      if ok1 {
        ok2 := SetRegister(D.X(op), Bits.Shl(vy, 1));
      }
      ghost var t2 := Abstract();
      ok := ok1 && ok2;
      if ok {
        AddPc(2);
      }
      ShiftLeftRegistersSteps(s, op, ok1, t1, ok2, t2);
    }

    /** 9xy0. */
    method SkipRegisterNotEqualsRegister(op: Opcode) returns (ok: bool)
      requires Valid()
      modifies pc
      ensures Valid()
      ensures Ended(ok, Abstract()) == S.SkipRegisterNotEqualsRegister(old(Abstract()), op)
    {
      if !D.Matches(D.SkipRegisterNotEqualsRegister, op) {
        return true;
      }
      ok := true;
      if registers.data[D.X(op)] != registers.data[D.Y(op)] {
        AddPc(2);
      }
    }

    /** Annn. */
    method SetMemoryAddressRegister(op: Opcode) returns (ok: bool)
      requires Valid()
      modifies ma, pc
      ensures Valid()
      ensures Ended(ok, Abstract()) == S.SetMemoryAddressRegister(old(Abstract()), op)
    {
      if !D.Matches(D.SetMemoryAddressRegister, op) {
        return true;
      }
      ok := SetI(D.NNN(op));
      if ok {
        AddPc(2);
      }
    }

    /** Bnnn. */
    method JumpToV0(op: Opcode) returns (ok: bool)
      requires Valid()
      modifies pc
      ensures Valid()
      ensures Ended(ok, Abstract()) == S.JumpToV0(old(Abstract()), op)
    {
      if !D.Matches(D.JumpToV0, op) {
        return true;
      }
      AddPc(D.NNN(op) + registers.data[0]);
      ok := true;
    }

    /** Cxkk, with rnd the value of `rand(0xFF)`. */
    method RandToRegister(op: Opcode, rnd: S.RandomByte) returns (ok: bool)
      requires Valid()
      modifies registers.data, pc
      ensures Valid()
      ensures Ended(ok, Abstract()) == S.RandToRegister(old(Abstract()), op, rnd)
    {
      if !D.Matches(D.RandToRegister, op) {
        return true;
      }
      ok := SetRegister(D.X(op), Bits.And(D.KK(op), rnd));
      if ok {
        AddPc(2);
      }
    }

    /** Dxyn. */
    method Draw(op: Opcode) returns (ok: bool)
      requires Valid()
      modifies pc
      ensures Valid()
      ensures Ended(ok, Abstract()) == S.Draw(old(Abstract()), op)
    {
      if !D.Matches(D.Draw, op) {
        return true;
      }
      AddPc(2);
      ok := true;
    }

    /** Fx29. */
    method SetMemoryAddressRegisterToCharacter(op: Opcode) returns (ok: bool)
      requires Valid()
      modifies ma, pc
      ensures Valid()
      ensures Ended(ok, Abstract()) == S.SetMemoryAddressRegisterToCharacter(old(Abstract()), op)
    {
      if !D.Matches(D.SetMemoryAddressRegisterToCharacter, op) {
        return true;
      }
      ok := SetI(registers.data[D.X(op)] * 5);
      if ok {
        AddPc(2);
      }
    }

    /** Fx33. */
    method UpdateRamWithRegisterAsBCDRepresentation(op: Opcode) returns (ok: bool)
      requires Valid()
      modifies ram.buffer, pc
      ensures Valid()
      ensures Ended(ok, Abstract()) == S.UpdateRamWithRegisterAsBCDRepresentation(old(Abstract()), op)
    {
      if !D.Matches(D.UpdateRamWithRegisterAsBCDRepresentation, op) {
        return true;
      }
      ghost var s := Abstract();
      var value, address := registers.data[D.X(op)], ma.data;
      var ok1 := WriteRam(address, value / 100);
      ghost var t1 := Abstract();
      var ok2, ok3 := false, false;
      if ok1 {
        ok2 := WriteRam(address + 1, (value / 10) % 10);
      }
      ghost var t2 := Abstract();
      if ok1 && ok2 {
        ok3 := WriteRam(address + 2, (value % 100) % 10);
      }
      ghost var t3 := Abstract();
      ok := ok1 && ok2 && ok3;
      if ok {
        AddPc(2);
      }
      BcdSteps(s, op, ok1, t1, ok2, t2, ok3, t3);
    }

    /** Fx65: the `upto` loop, one pass per register V0..Vx; the loop ends early when a
        pass raises. */
    method BatchLoadRegisterWithRamValues(op: Opcode) returns (ok: bool)
      requires Valid()
      modifies registers.data, ma, pc
      ensures Valid()
      ensures Ended(ok, Abstract()) == S.BatchLoadRegisterWithRamValues(old(Abstract()), op)
    {
      if !D.Matches(D.BatchLoadRegisterWithRamValues, op) {
        return true;
      }
      var last := D.X(op);
      ghost var s := Abstract();
      var index := 0;
      while index <= last
        invariant index <= last + 1
        invariant Valid()
        invariant S.LoadRegisters(s, 0, last) == S.LoadRegisters(Abstract(), index, last)
        decreases last + 1 - index
      {
        var memoryAddress := ma.data;
        var byte := ReadByte();
        if byte.Overflow? {
          return false;
        }
        ok := SetRegister(index, byte.value);
        if !ok {
          return;
        }
        ok := SetI(memoryAddress + 1);
        if !ok {
          return;
        }
        index := index + 1;
      }
      AddPc(2);
      ok := true;
    }

    /** `instruction.execute(opcode)` for the instruction k. */
    method Execute(k: D.Instruction, op: Opcode, rnd: S.RandomByte) returns (ok: bool)
      requires Valid()
      modifies ram.buffer, registers.data, pc, ma, stack
      ensures Valid()
      ensures Ended(ok, Abstract()) == S.Execute(k, op, rnd, old(Abstract()))
    {
      WellFormedAbstract();
      match k
      case ClearDisplay => ok := ClearDisplay(op);
      case ReturnFromSubroutine => ok := ReturnFromSubroutine(op);
      case Jump => ok := Jump(op);
      case Call => ok := Call(op);
      case SkipRegisterEqualsValue => ok := SkipRegisterEqualsValue(op);
      case SkipRegisterNotEqualsValue => ok := SkipRegisterNotEqualsValue(op);
      case SkipRegisterEqualsRegister => ok := SkipRegisterEqualsRegister(op);
      case UpdateRegister => ok := UpdateRegister(op);
      case AddToRegister => ok := AddToRegister(op);
      case Copy => ok := Copy(op);
      case Or => ok := Or(op);
      case And => ok := And(op);
      case Xor => ok := Xor(op);
      case SumRegisters => ok := SumRegisters(op);
      case SubRegisters => ok := SubRegisters(op);
      case ShiftRightRegisters => ok := ShiftRightRegisters(op);
      case SubbRegisters => ok := SubbRegisters(op);
      case ShiftLeftRegisters => ok := ShiftLeftRegisters(op);
      case SkipRegisterNotEqualsRegister => ok := SkipRegisterNotEqualsRegister(op);
      case SetMemoryAddressRegister => ok := SetMemoryAddressRegister(op);
      case JumpToV0 => ok := JumpToV0(op);
      case RandToRegister => ok := RandToRegister(op, rnd);
      case Draw => ok := Draw(op);
      case UpdateRamWithRegisterAsBCDRepresentation => ok := UpdateRamWithRegisterAsBCDRepresentation(op);
      case BatchLoadRegisterWithRamValues => ok := BatchLoadRegisterWithRamValues(op);
      case SetMemoryAddressRegisterToCharacter => ok := SetMemoryAddressRegisterToCharacter(op);
    }

    /** One pass of the `start` loop: fetch the word at PC, look it up, and execute the
        instruction found; an unknown opcode is skipped without moving PC. */
    method Step(rnd: S.RandomByte) returns (ok: bool)
      requires Valid()
      modifies ram.buffer, registers.data, pc, ma, stack
      ensures Valid()
      ensures Ended(ok, Abstract()) == S.Step(old(Abstract()), rnd)
    {
      WellFormedAbstract();
      ghost var s := Abstract();
      FetchedWord(s);
      var code := ram.Read(pc.data, 2);
      ghost var found: Option<D.Instruction> := None;
      if code.Overflow? {
        ok := false;
      } else {
        var opcode := code.value as Opcode;
        var instruction := D.Lookup(opcode);
        found := instruction;
        if instruction.None? {
          ok := true;
        } else {
          ok := Execute(instruction.value, opcode, rnd);
        }
      }
      StepCases(s, rnd, code, found, ok, Abstract());
    }
  }
}
