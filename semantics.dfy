/** The instruction set as functions over the machine state.

    Each function follows its `execute` method step by step: the `skip_opcode?` guard, then
    the register, RAM, stack, I and PC updates in the order the source makes them. An
    OverflowError raised by any step ends the instruction; the state at that point (with the
    updates made before the raise) is kept in `Raised`. */
module Semantics {
  import opened Bits
  import opened Wrappers
  import D = Decoding
  import Memories
  import CallStack
  import RegisterFile

  type Opcode = D.Opcode

  /** The value of `rand(0xFF)`: an integer in 0..254. */
  type RandomByte = r: int | 0 <= r < 0xFF

  const RamSize: nat := 4096
  const RegisterCount: nat := 16
  const RegisterWidth: nat := 8
  const PcWidth: nat := 16
  const IWidth: nat := 12
  const StackLevels: nat := 16
  const StackWidth: nat := 16
  /** VF, the flag register. */
  const Flag: nat := 0xF

  /** RAM cells, the values of V0..VF, the program counter, the memory address register I
      and the stack entries, bottom first. */
  datatype State = State(ram: seq<int>, v: seq<int>, pc: int, i: int, stack: seq<int>)

  /** The shape every reachable state has: 4096 RAM cells holding bytes and 16 registers. */
  predicate WellFormed(s: State)
  {
    |s.ram| == RamSize && Memories.CellsFit(s.ram, 8) && |s.v| == RegisterCount
  }

  /** What the width checks maintain on top of that: registers below 256 (they can be
      negative, since a subtraction writes its raw difference), I below 4096, at most 16
      stack entries, each below 65536. PC has no bound, since `Register#add` never checks. */
  predicate Consistent(s: State)
  {
    && WellFormed(s)
    && (forall r :: 0 <= r < RegisterCount ==> s.v[r] < 256)
    && s.i < 0x1000
    && |s.stack| <= StackLevels
    && (forall e :: 0 <= e < |s.stack| ==> s.stack[e] < 0x10000)
  }

  /** How an instruction ends: normally, or with an OverflowError, in either case with the
      state it leaves behind. */
  datatype Outcome = Completed(state: State) | Raised(state: State) {
    predicate IsFailure() { Raised? }

    function PropagateFailure(): Outcome
    {
      this
    }

    function Extract(): State
    {
      state
    }
  }

  // The primitive updates, each atomic: it validates before it changes anything. They are
  // stated on numbers here; the lemmas after them tie each one to the container it stands for.

  /** `registers.update_register(index, data)`. */
  function SetRegister(s: State, index: int, data: int): Outcome
  {
    if 0 <= index < |s.v| && data < 256 then Completed(s.(v := s.v[index := data])) else Raised(s)
  }

  /** `pc.update(data)`. */
  function SetPc(s: State, data: int): Outcome
  {
    if data < 0x10000 then Completed(s.(pc := data)) else Raised(s)
  }

  /** `ma.update(data)`. */
  function SetI(s: State, data: int): Outcome
  {
    if data < 0x1000 then Completed(s.(i := data)) else Raised(s)
  }

  /** `pc.add(d)`: no width check. */
  function AddPc(s: State, d: int): State
  {
    s.(pc := s.pc + d)
  }

  /** `ram.write(position, data)`. */
  function WriteRam(s: State, position: int, data: int): Outcome
  {
    if 0 <= position < |s.ram| && 0 <= data < 256
    then Completed(s.(ram := s.ram[position := data])) else Raised(s)
  }

  /** `stack.push(data)`. */
  function PushStack(s: State, data: int): Outcome
  {
    if data < 0x10000 && |s.stack| < StackLevels
    then Completed(s.(stack := s.stack + [data])) else Raised(s)
  }

  /** `registers.update_register(0xF, 1) if cond`: the flag of 8xy4, 8xy5 and 8xy7, which
      is set and never cleared. */
  function SetFlagWhen(s: State, cond: bool): Outcome
  {
    if cond then SetRegister(s, Flag, 1) else Completed(s)
  }

  /** `ram.read(register: ma)`, one byte: the read also checks address + 1. */
  function ReadByte(s: State, address: int): Result<int>
  {
    if 0 <= address && address + 1 < |s.ram| then Ok(s.ram[address]) else Overflow
  }

  /** SetRegister is `Registers#update_register` on a bank of 8-bit registers. */
  lemma SetRegisterAgrees(s: State, index: int, data: int)
    ensures var r := SetRegister(s, index, data);
      && RegisterFile.UpdatedBank(s.v, RegisterWidth, index, data) == (if r.Completed? then Ok(r.state.v) else Overflow)
      && r.state == s.(v := r.state.v)
  {
    Pow2Widths();
    var r := SetRegister(s, index, data);
    if r.Completed? {
      assert RegisterFile.UpdatedBank(s.v, RegisterWidth, index, data).value == r.state.v;
    }
  }

  /** SetPc and SetI are `Register#update` on the 16-bit PC and the 12-bit I. */
  lemma SetPcAndIAgree(s: State, data: int)
    ensures SetPc(s, data).Completed? == RegisterFile.Accepts(PcWidth, data)
    ensures SetI(s, data).Completed? == RegisterFile.Accepts(IWidth, data)
    ensures SetPc(s, data).state == if RegisterFile.Accepts(PcWidth, data) then s.(pc := data) else s
    ensures SetI(s, data).state == if RegisterFile.Accepts(IWidth, data) then s.(i := data) else s
  {
    Pow2Widths();
  }

  /** WriteRam is `Memory#write` on the 8-bit RAM. */
  lemma WriteRamAgrees(s: State, position: int, data: int)
    ensures var r := WriteRam(s, position, data);
      && Memories.Written(s.ram, 8, position, data) == (if r.Completed? then Ok(r.state.ram) else Overflow)
      && r.state == s.(ram := r.state.ram)
  {
    Pow2Widths();
    var r := WriteRam(s, position, data);
    if r.Completed? {
      assert Memories.Written(s.ram, 8, position, data).value == r.state.ram;
    }
  }

  /** PushStack is `Stack#push` on 16 levels of 16 bits. */
  lemma PushStackAgrees(s: State, data: int)
    ensures var r := PushStack(s, data);
      && CallStack.Pushed(s.stack, StackLevels, StackWidth, data) == (if r.Completed? then Ok(r.state.stack) else Overflow)
      && r.state == s.(stack := r.state.stack)
  {
    Pow2Widths();
  }

  /** ReadByte is `Memory#read` with length 1. */
  lemma ReadByteAgrees(s: State, address: int)
    requires WellFormed(s)
    ensures ReadByte(s, address) == Memories.ReadCells(s.ram, address, 1)
  {
  }

  // The `execute` methods. The opcode fields are those of module Decoding: x = X(op),
  // y = Y(op), kk = KK(op), nnn = NNN(op).

  /** 00E0: only clears the display, which is not part of this model. */
  function ClearDisplay(s: State, op: Opcode): Outcome
  {
    Completed(s)
  }

  /** 00EE: a stub that only prints. */
  function ReturnFromSubroutine(s: State, op: Opcode): Outcome
  {
    Completed(s)
  }

  /** 1nnn: PC := nnn. */
  function Jump(s: State, op: Opcode): Outcome
  {
    if !D.Matches(D.Jump, op) then Completed(s)
    else SetPc(s, D.NNN(op))
  }

  /** 2nnn: push PC, then PC := nnn. */
  function Call(s: State, op: Opcode): Outcome
  {
    if !D.Matches(D.Call, op) then Completed(s)
    else
      var s1 :- PushStack(s, s.pc);
      SetPc(s1, D.NNN(op))
  }

  /** 3xkk: PC += 2 when Vx == kk. */
  function SkipRegisterEqualsValue(s: State, op: Opcode): Outcome
    requires WellFormed(s)
  {
    if !D.Matches(D.SkipRegisterEqualsValue, op) then Completed(s)
    else Completed(if s.v[D.X(op)] == D.KK(op) then AddPc(s, 2) else s)
  }

  /** 4xkk: PC += 2 when Vx != kk. */
  function SkipRegisterNotEqualsValue(s: State, op: Opcode): Outcome
    requires WellFormed(s)
  {
    if !D.Matches(D.SkipRegisterNotEqualsValue, op) then Completed(s)
    else Completed(if s.v[D.X(op)] != D.KK(op) then AddPc(s, 2) else s)
  }

  /** 5xy0: PC += 2 when Vx == Vy. */
  function SkipRegisterEqualsRegister(s: State, op: Opcode): Outcome
    requires WellFormed(s)
  {
    if !D.Matches(D.SkipRegisterEqualsRegister, op) then Completed(s)
    else Completed(if s.v[D.X(op)] == s.v[D.Y(op)] then AddPc(s, 2) else s)
  }

  /** 6xkk: Vx := kk. */
  function UpdateRegister(s: State, op: Opcode): Outcome
    requires WellFormed(s)
  {
    if !D.Matches(D.UpdateRegister, op) then Completed(s)
    else
      var s1 :- SetRegister(s, D.X(op), D.KK(op));
      Completed(AddPc(s1, 2))
  }

  /** 7xkk: Vx := kk + Vx, unmasked. */
  function AddToRegister(s: State, op: Opcode): Outcome
    requires WellFormed(s)
  {
    if !D.Matches(D.AddToRegister, op) then Completed(s)
    else
      var x := D.X(op);
      var s1 :- SetRegister(s, x, D.KK(op) + s.v[x]);
      Completed(AddPc(s1, 2))
  }

  /** 8xy0: Vx := Vy. */
  function Copy(s: State, op: Opcode): Outcome
    requires WellFormed(s)
  {
    if !D.Matches(D.Copy, op) then Completed(s)
    else
      var s1 :- SetRegister(s, D.X(op), s.v[D.Y(op)]);
      Completed(AddPc(s1, 2))
  }

  /** 8xy1: Vx := Vx | Vy. */
  function Or(s: State, op: Opcode): Outcome
    requires WellFormed(s)
  {
    if !D.Matches(D.Or, op) then Completed(s)
    else
      var x, y := D.X(op), D.Y(op);
      var s1 :- SetRegister(s, x, Bits.Or(s.v[x], s.v[y]));
      Completed(AddPc(s1, 2))
  }

  /** 8xy2: Vx := Vx & Vy. */
  function And(s: State, op: Opcode): Outcome
    requires WellFormed(s)
  {
    if !D.Matches(D.And, op) then Completed(s)
    else
      var x, y := D.X(op), D.Y(op);
      var s1 :- SetRegister(s, x, Bits.And(s.v[x], s.v[y]));
      Completed(AddPc(s1, 2))
  }

  /** 8xy3: Vx := Vx ^ Vy. */
  function Xor(s: State, op: Opcode): Outcome
    requires WellFormed(s)
  {
    if !D.Matches(D.Xor, op) then Completed(s)
    else
      var x, y := D.X(op), D.Y(op);
      var s1 :- SetRegister(s, x, Bits.Xor(s.v[x], s.v[y]));
      Completed(AddPc(s1, 2))
  }

  /** 8xy4: Vx := (Vx + Vy) & 0xFF, then VF := 1 when `sum >> 8 > 0`. */
  function SumRegisters(s: State, op: Opcode): Outcome
    requires WellFormed(s)
  {
    if !D.Matches(D.SumRegisters, op) then Completed(s)
    else
      var x, y := D.X(op), D.Y(op);
      var sum := s.v[x] + s.v[y];
      var s1 :- SetRegister(s, x, Bits.And(sum, 0xFF));
      var s2 :- SetFlagWhen(s1, Shr(sum, 8) > 0);
      Completed(AddPc(s2, 2))
  }

  /** 8xy5: VF := 1 when Vx > Vy, then Vx := Vx - Vy, unmasked. */
  function SubRegisters(s: State, op: Opcode): Outcome
    requires WellFormed(s)
  {
    if !D.Matches(D.SubRegisters, op) then Completed(s)
    else
      var x, y := D.X(op), D.Y(op);
      var vx, vy := s.v[x], s.v[y];
      var s1 :- SetFlagWhen(s, vx > vy);
      var s2 :- SetRegister(s1, x, vx - vy);
      Completed(AddPc(s2, 2))
  }

  /** 8xy6: VF := Vy & 1, then Vx := Vy >> 1. */
  function ShiftRightRegisters(s: State, op: Opcode): Outcome
    requires WellFormed(s)
  {
    if !D.Matches(D.ShiftRightRegisters, op) then Completed(s)
    else
      var vy := s.v[D.Y(op)];
      var s1 :- SetRegister(s, Flag, Bits.And(vy, 1));
      var s2 :- SetRegister(s1, D.X(op), Shr(vy, 1));
      Completed(AddPc(s2, 2))
  }

  /** 8xy7: VF := 1 when Vy > Vx, then Vx := Vy - Vx, unmasked. */
  function SubbRegisters(s: State, op: Opcode): Outcome
    requires WellFormed(s)
  {
    if !D.Matches(D.SubbRegisters, op) then Completed(s)
    else
      var x, y := D.X(op), D.Y(op);
      var vx, vy := s.v[x], s.v[y];
      var s1 :- SetFlagWhen(s, vy > vx);
      var s2 :- SetRegister(s1, x, vy - vx);
      Completed(AddPc(s2, 2))
  }

  /** 8xyE: VF := 1 when `Vy & 0x80 != 0` and 0 otherwise, then Vx := Vy << 1, unmasked. */
  function ShiftLeftRegisters(s: State, op: Opcode): Outcome
    requires WellFormed(s)
  {
    if !D.Matches(D.ShiftLeftRegisters, op) then Completed(s)
    else
      var vy := s.v[D.Y(op)];
      var s1 :- SetRegister(s, Flag, if Bits.And(vy, 0x80) != 0 then 1 else 0);
      var s2 :- SetRegister(s1, D.X(op), Shl(vy, 1));
      Completed(AddPc(s2, 2))
  }

  /** 9xy0: PC += 2 when Vx != Vy. */
  function SkipRegisterNotEqualsRegister(s: State, op: Opcode): Outcome
    requires WellFormed(s)
  {
    if !D.Matches(D.SkipRegisterNotEqualsRegister, op) then Completed(s)
    else Completed(if s.v[D.X(op)] != s.v[D.Y(op)] then AddPc(s, 2) else s)
  }

  /** Annn: I := nnn. */
  function SetMemoryAddressRegister(s: State, op: Opcode): Outcome
  {
    if !D.Matches(D.SetMemoryAddressRegister, op) then Completed(s)
    else
      var s1 :- SetI(s, D.NNN(op));
      Completed(AddPc(s1, 2))
  }

  /** Bnnn: PC += nnn + V0. */
  function JumpToV0(s: State, op: Opcode): Outcome
    requires WellFormed(s)
  {
    if !D.Matches(D.JumpToV0, op) then Completed(s)
    else Completed(AddPc(s, D.NNN(op) + s.v[0]))
  }

  /** Cxkk: Vx := kk & rnd, where rnd is the value of `rand(0xFF)`. */
  function RandToRegister(s: State, op: Opcode, rnd: RandomByte): Outcome
    requires WellFormed(s)
  {
    if !D.Matches(D.RandToRegister, op) then Completed(s)
    else
      var s1 :- SetRegister(s, D.X(op), Bits.And(D.KK(op), rnd));
      Completed(AddPc(s1, 2))
  }

  /** Dxyn: a stub that only advances PC. */
  function Draw(s: State, op: Opcode): Outcome
  {
    if !D.Matches(D.Draw, op) then Completed(s)
    else Completed(AddPc(s, 2))
  }

  /** Fx29: I := Vx * 5. */
  function SetMemoryAddressRegisterToCharacter(s: State, op: Opcode): Outcome
    requires WellFormed(s)
  {
    if !D.Matches(D.SetMemoryAddressRegisterToCharacter, op) then Completed(s)
    else
      var s1 :- SetI(s, s.v[D.X(op)] * 5);
      Completed(AddPc(s1, 2))
  }

  /** Fx33: RAM[I], RAM[I+1], RAM[I+2] := Vx / 100, (Vx / 10) % 10, (Vx % 100) % 10. */
  function UpdateRamWithRegisterAsBCDRepresentation(s: State, op: Opcode): Outcome
    requires WellFormed(s)
  {
    if !D.Matches(D.UpdateRamWithRegisterAsBCDRepresentation, op) then Completed(s)
    else
      var value, address := s.v[D.X(op)], s.i;
      var s1 :- WriteRam(s, address, value / 100);
      var s2 :- WriteRam(s1, address + 1, (value / 10) % 10);
      var s3 :- WriteRam(s2, address + 2, (value % 100) % 10);
      Completed(AddPc(s3, 2))
  }

  /** The passes `index`..`last` of the `upto` loop of Fx65: each reads RAM[I] into
      V[index] and then sets I to its old value plus 1. */
  function LoadRegisters(s: State, index: nat, last: nat): (r: Outcome)
    ensures r.state == s.(v := r.state.v, i := r.state.i) && |r.state.v| == |s.v|
    decreases last + 1 - index
  {
    if index > last then Completed(s)
    else
      match ReadByte(s, s.i)
      case Overflow => Raised(s)
      case Ok(byte) =>
        var s1 :- SetRegister(s, index, byte);
        var s2 :- SetI(s1, s.i + 1);
        LoadRegisters(s2, index + 1, last)
  }

  /** Fx65: V0..Vx := RAM[I..I+x], advancing I past each byte read. */
  function BatchLoadRegisterWithRamValues(s: State, op: Opcode): Outcome
  {
    if !D.Matches(D.BatchLoadRegisterWithRamValues, op) then Completed(s)
    else
      var s1 :- LoadRegisters(s, 0, D.X(op));
      Completed(AddPc(s1, 2))
  }

  /** `instruction.execute(opcode)` for the instruction k. */
  function Execute(k: D.Instruction, op: Opcode, rnd: RandomByte, s: State): Outcome
    requires WellFormed(s)
  {
    match k
    case ClearDisplay => ClearDisplay(s, op)
    case ReturnFromSubroutine => ReturnFromSubroutine(s, op)
    case Jump => Jump(s, op)
    case Call => Call(s, op)
    case SkipRegisterEqualsValue => SkipRegisterEqualsValue(s, op)
    case SkipRegisterNotEqualsValue => SkipRegisterNotEqualsValue(s, op)
    case SkipRegisterEqualsRegister => SkipRegisterEqualsRegister(s, op)
    case UpdateRegister => UpdateRegister(s, op)
    case AddToRegister => AddToRegister(s, op)
    case Copy => Copy(s, op)
    case Or => Or(s, op)
    case And => And(s, op)
    case Xor => Xor(s, op)
    case SumRegisters => SumRegisters(s, op)
    case SubRegisters => SubRegisters(s, op)
    case ShiftRightRegisters => ShiftRightRegisters(s, op)
    case SubbRegisters => SubbRegisters(s, op)
    case ShiftLeftRegisters => ShiftLeftRegisters(s, op)
    case SkipRegisterNotEqualsRegister => SkipRegisterNotEqualsRegister(s, op)
    case SetMemoryAddressRegister => SetMemoryAddressRegister(s, op)
    case JumpToV0 => JumpToV0(s, op)
    case RandToRegister => RandToRegister(s, op, rnd)
    case Draw => Draw(s, op)
    case UpdateRamWithRegisterAsBCDRepresentation => UpdateRamWithRegisterAsBCDRepresentation(s, op)
    case BatchLoadRegisterWithRamValues => BatchLoadRegisterWithRamValues(s, op)
    case SetMemoryAddressRegisterToCharacter => SetMemoryAddressRegisterToCharacter(s, op)
  }

  /** The opcode at PC, `ram.read(register: pc, length: 2)`: the big-endian word of
      RAM[PC] and RAM[PC+1]; the read also checks PC + 2. */
  function Fetch(s: State): Result<Opcode>
    requires WellFormed(s)
  {
    if 0 <= s.pc && s.pc + 2 < RamSize then Ok((256 * s.ram[s.pc] + s.ram[s.pc + 1]) as bv16)
    else Overflow
  }

  /** Fetch is `Memory#read` of two bytes at PC. */
  lemma FetchAgrees(s: State)
    requires WellFormed(s)
    ensures Fetch(s).Ok? == Memories.ReadCells(s.ram, s.pc, 2).Ok?
    ensures Fetch(s).Ok? ==> Fetch(s).value == Memories.ReadCells(s.ram, s.pc, 2).value as bv16
  {
  }

  /** One pass of the loop of `ProgramRunner#start`: fetch, look up, execute. An opcode no
      instruction accepts only prints a warning. */
  function Step(s: State, rnd: RandomByte): Outcome
    requires WellFormed(s)
  {
    match Fetch(s)
    case Overflow => Raised(s)
    case Ok(op) =>
      match D.Lookup(op)
      case None => Completed(s)
      case Some(k) => Execute(k, op, rnd, s)
  }
}
