/** The invariant `Consistent`: every width check of the source holds of the state, and
    every instruction, hence every step of the runner, keeps it. */
module Invariant {
  import D = Decoding
  import opened Semantics

  // The primitive updates keep it, each by its own check.

  lemma SetRegisterConsistent(s: State, index: int, data: int)
    requires Consistent(s)
    ensures Consistent(SetRegister(s, index, data).state)
  {
  }

  lemma SetIConsistent(s: State, data: int)
    requires Consistent(s)
    ensures Consistent(SetI(s, data).state)
  {
  }

  lemma WriteRamConsistent(s: State, position: int, data: int)
    requires Consistent(s)
    ensures Consistent(WriteRam(s, position, data).state)
  {
  }

  /** Each pass of the Fx65 loop writes a byte into a register and a value below 4096
      into I. */
  lemma {:induction false} LoadRegistersConsistent(s: State, index: nat, last: nat)
    requires Consistent(s)
    ensures Consistent(LoadRegisters(s, index, last).state)
    decreases last + 1 - index
  {
    if index <= last && ReadByte(s, s.i).Ok? {
      var s1 := SetRegister(s, index, ReadByte(s, s.i).value);
      if s1.Completed? {
        var s2 := SetI(s1.state, s.i + 1);
        if s2.Completed? {
          LoadRegistersConsistent(s2.state, index + 1, last);
        }
      }
    }
  }

  lemma ClearDisplayConsistent(s: State, op: Opcode)
    requires Consistent(s)
    ensures Consistent(ClearDisplay(s, op).state)
  {
  }

  lemma ReturnFromSubroutineConsistent(s: State, op: Opcode)
    requires Consistent(s)
    ensures Consistent(ReturnFromSubroutine(s, op).state)
  {
  }

  lemma JumpConsistent(s: State, op: Opcode)
    requires Consistent(s)
    ensures Consistent(Jump(s, op).state)
  {
  }

  lemma CallConsistent(s: State, op: Opcode)
    requires Consistent(s)
    ensures Consistent(Call(s, op).state)
  {
  }

  lemma SkipRegisterEqualsValueConsistent(s: State, op: Opcode)
    requires Consistent(s)
    ensures Consistent(SkipRegisterEqualsValue(s, op).state)
  {
  }

  lemma SkipRegisterNotEqualsValueConsistent(s: State, op: Opcode)
    requires Consistent(s)
    ensures Consistent(SkipRegisterNotEqualsValue(s, op).state)
  {
  }

  lemma SkipRegisterEqualsRegisterConsistent(s: State, op: Opcode)
    requires Consistent(s)
    ensures Consistent(SkipRegisterEqualsRegister(s, op).state)
  {
  }

  lemma UpdateRegisterConsistent(s: State, op: Opcode)
    requires Consistent(s)
    ensures Consistent(UpdateRegister(s, op).state)
  {
  }

  lemma AddToRegisterConsistent(s: State, op: Opcode)
    requires Consistent(s)
    ensures Consistent(AddToRegister(s, op).state)
  {
  }

  lemma CopyConsistent(s: State, op: Opcode)
    requires Consistent(s)
    ensures Consistent(Copy(s, op).state)
  {
  }

  lemma OrConsistent(s: State, op: Opcode)
    requires Consistent(s)
    ensures Consistent(Or(s, op).state)
  {
  }

  lemma AndConsistent(s: State, op: Opcode)
    requires Consistent(s)
    ensures Consistent(And(s, op).state)
  {
  }

  lemma XorConsistent(s: State, op: Opcode)
    requires Consistent(s)
    ensures Consistent(Xor(s, op).state)
  {
  }

  lemma SumRegistersConsistent(s: State, op: Opcode)
    requires Consistent(s)
    ensures Consistent(SumRegisters(s, op).state)
  {
  }

  lemma SubRegistersConsistent(s: State, op: Opcode)
    requires Consistent(s)
    ensures Consistent(SubRegisters(s, op).state)
  {
    if D.Matches(D.SubRegisters, op) {
      var vx, vy := s.v[D.X(op)], s.v[D.Y(op)];
      var s1 := if vx > vy then SetRegister(s, Flag, 1) else Completed(s);
      SetRegisterConsistent(s, Flag, 1);
      SetRegisterConsistent(s1.state, D.X(op), vx - vy);
    }
  }

  lemma ShiftRightRegistersConsistent(s: State, op: Opcode)
    requires Consistent(s)
    ensures Consistent(ShiftRightRegisters(s, op).state)
  {
  }

  lemma SubbRegistersConsistent(s: State, op: Opcode)
    requires Consistent(s)
    ensures Consistent(SubbRegisters(s, op).state)
  {
    if D.Matches(D.SubbRegisters, op) {
      var vx, vy := s.v[D.X(op)], s.v[D.Y(op)];
      var s1 := if vy > vx then SetRegister(s, Flag, 1) else Completed(s);
      SetRegisterConsistent(s, Flag, 1);
      SetRegisterConsistent(s1.state, D.X(op), vy - vx);
    }
  }

  lemma ShiftLeftRegistersConsistent(s: State, op: Opcode)
    requires Consistent(s)
    ensures Consistent(ShiftLeftRegisters(s, op).state)
  {
  }

  lemma SkipRegisterNotEqualsRegisterConsistent(s: State, op: Opcode)
    requires Consistent(s)
    ensures Consistent(SkipRegisterNotEqualsRegister(s, op).state)
  {
  }

  lemma SetMemoryAddressRegisterConsistent(s: State, op: Opcode)
    requires Consistent(s)
    ensures Consistent(SetMemoryAddressRegister(s, op).state)
  {
    SetIConsistent(s, D.NNN(op));
  }

  lemma JumpToV0Consistent(s: State, op: Opcode)
    requires Consistent(s)
    ensures Consistent(JumpToV0(s, op).state)
  {
  }

  lemma RandToRegisterConsistent(s: State, op: Opcode, rnd: RandomByte)
    requires Consistent(s)
    ensures Consistent(RandToRegister(s, op, rnd).state)
  {
  }

  lemma DrawConsistent(s: State, op: Opcode)
    requires Consistent(s)
    ensures Consistent(Draw(s, op).state)
  {
  }

  lemma UpdateRamWithRegisterAsBCDRepresentationConsistent(s: State, op: Opcode)
    requires Consistent(s)
    ensures Consistent(UpdateRamWithRegisterAsBCDRepresentation(s, op).state)
  {
    if D.Matches(D.UpdateRamWithRegisterAsBCDRepresentation, op) {
      var value, address := s.v[D.X(op)], s.i;
      var s1 := WriteRam(s, address, value / 100);
      WriteRamConsistent(s, address, value / 100);
      var s2 := WriteRam(s1.state, address + 1, (value / 10) % 10);
      WriteRamConsistent(s1.state, address + 1, (value / 10) % 10);
      WriteRamConsistent(s2.state, address + 2, (value % 100) % 10);
    }
  }

  lemma BatchLoadRegisterWithRamValuesConsistent(s: State, op: Opcode)
    requires Consistent(s)
    ensures Consistent(BatchLoadRegisterWithRamValues(s, op).state)
  {
    LoadRegistersConsistent(s, 0, D.X(op));
  }

  lemma SetMemoryAddressRegisterToCharacterConsistent(s: State, op: Opcode)
    requires Consistent(s)
    ensures Consistent(SetMemoryAddressRegisterToCharacter(s, op).state)
  {
    SetIConsistent(s, s.v[D.X(op)] * 5);
  }

  /** Executing any instruction keeps the invariant. */
  lemma ExecuteConsistent(k: D.Instruction, op: Opcode, rnd: RandomByte, s: State)
    requires Consistent(s)
    ensures Consistent(Execute(k, op, rnd, s).state)
  {
    match k
    case ClearDisplay => ClearDisplayConsistent(s, op);
    case ReturnFromSubroutine => ReturnFromSubroutineConsistent(s, op);
    case Jump => JumpConsistent(s, op);
    case Call => CallConsistent(s, op);
    case SkipRegisterEqualsValue => SkipRegisterEqualsValueConsistent(s, op);
    case SkipRegisterNotEqualsValue => SkipRegisterNotEqualsValueConsistent(s, op);
    case SkipRegisterEqualsRegister => SkipRegisterEqualsRegisterConsistent(s, op);
    case UpdateRegister => UpdateRegisterConsistent(s, op);
    case AddToRegister => AddToRegisterConsistent(s, op);
    case Copy => CopyConsistent(s, op);
    case Or => OrConsistent(s, op);
    case And => AndConsistent(s, op);
    case Xor => XorConsistent(s, op);
    case SumRegisters => SumRegistersConsistent(s, op);
    case SubRegisters => SubRegistersConsistent(s, op);
    case ShiftRightRegisters => ShiftRightRegistersConsistent(s, op);
    case SubbRegisters => SubbRegistersConsistent(s, op);
    case ShiftLeftRegisters => ShiftLeftRegistersConsistent(s, op);
    case SkipRegisterNotEqualsRegister => SkipRegisterNotEqualsRegisterConsistent(s, op);
    case SetMemoryAddressRegister => SetMemoryAddressRegisterConsistent(s, op);
    case JumpToV0 => JumpToV0Consistent(s, op);
    case RandToRegister => RandToRegisterConsistent(s, op, rnd);
    case Draw => DrawConsistent(s, op);
    case UpdateRamWithRegisterAsBCDRepresentation => UpdateRamWithRegisterAsBCDRepresentationConsistent(s, op);
    case BatchLoadRegisterWithRamValues => BatchLoadRegisterWithRamValuesConsistent(s, op);
    case SetMemoryAddressRegisterToCharacter => SetMemoryAddressRegisterToCharacterConsistent(s, op);
  }

  /** So does a step of the runner, whatever it fetches. */
  lemma StepConsistent(s: State, rnd: RandomByte)
    requires Consistent(s)
    ensures Consistent(Step(s, rnd).state)
  {
    if Fetch(s).Ok? && D.Lookup(Fetch(s).value).Some? {
      ExecuteConsistent(D.Lookup(Fetch(s).value).value, Fetch(s).value, rnd, s);
    }
  }
}
