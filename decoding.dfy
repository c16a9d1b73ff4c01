/** `InstructionId` matchers and the dispatch lookup of `ProgramRunner`.

    Every `InstructionId` has the same `hash`, and `eql?` holds when either side's matcher
    accepts the other's opcode, so looking up `InstructionId.new(code)` in the table amounts
    to searching the registered instructions for one whose matcher accepts `code`. */
module Decoding {
  import opened Wrappers

  /** A fetched 16-bit instruction word. */
  type Opcode = bv16

  /** One constructor per `Instruction` subclass. */
  datatype Instruction =
    | ClearDisplay                             // 00E0
    | ReturnFromSubroutine                     // 00EE
    | Jump                                     // 1nnn
    | Call                                     // 2nnn
    | SkipRegisterEqualsValue                  // 3xkk
    | SkipRegisterNotEqualsValue               // 4xkk
    | SkipRegisterEqualsRegister               // 5xy0
    | UpdateRegister                           // 6xkk
    | AddToRegister                            // 7xkk
    | Copy                                     // 8xy0
    | Or                                       // 8xy1
    | And                                      // 8xy2
    | Xor                                      // 8xy3
    | SumRegisters                             // 8xy4
    | SubRegisters                             // 8xy5
    | ShiftRightRegisters                      // 8xy6
    | SubbRegisters                            // 8xy7
    | ShiftLeftRegisters                       // 8xyE
    | SkipRegisterNotEqualsRegister            // 9xy0
    | SetMemoryAddressRegister                 // Annn
    | JumpToV0                                 // Bnnn
    | RandToRegister                           // Cxkk
    | Draw                                     // Dxyn
    | UpdateRamWithRegisterAsBCDRepresentation // Fx33
    | BatchLoadRegisterWithRamValues           // Fx65
    | SetMemoryAddressRegisterToCharacter      // Fx29

  /** `InstructionId#matches_opcode?` of each instruction: a literal opcode for the first
      two, a mask-and-compare lambda for the others. */
  predicate Matches(k: Instruction, op: Opcode)
  {
    match k
    case ClearDisplay => op == 0x00E0
    case ReturnFromSubroutine => op == 0x00EE
    case Jump => op & 0xF000 == 0x1000
    case Call => op & 0xF000 == 0x2000
    case SkipRegisterEqualsValue => op & 0xF000 == 0x3000
    case SkipRegisterNotEqualsValue => op & 0xF000 == 0x4000
    case SkipRegisterEqualsRegister => op & 0xF000 == 0x5000
    case UpdateRegister => op & 0xF000 == 0x6000
    case AddToRegister => op & 0xF000 == 0x7000
    case Copy => op & 0xF00F == 0x8000
    case Or => op & 0xF00F == 0x8001
    case And => op & 0xF00F == 0x8002
    case Xor => op & 0xF00F == 0x8003
    case SumRegisters => op & 0xF00F == 0x8004
    case SubRegisters => op & 0xF00F == 0x8005
    case ShiftRightRegisters => op & 0xF00F == 0x8006
    case SubbRegisters => op & 0xF00F == 0x8007
    case ShiftLeftRegisters => op & 0xF00F == 0x800E
    case SkipRegisterNotEqualsRegister => op & 0xF00F == 0x9000
    case SetMemoryAddressRegister => op & 0xF000 == 0xA000
    case JumpToV0 => op & 0xF000 == 0xB000
    case RandToRegister => op & 0xF000 == 0xC000
    case Draw => op & 0xF000 == 0xD000
    case UpdateRamWithRegisterAsBCDRepresentation => op & 0xF0FF == 0xF033
    case BatchLoadRegisterWithRamValues => op & 0xF0FF == 0xF065
    case SetMemoryAddressRegisterToCharacter => op & 0xF0FF == 0xF029
  }

  /** The instruction list handed to `ProgramRunner.new`, in its order. */
  const Registered: seq<Instruction> := [
    ClearDisplay, ReturnFromSubroutine, Jump, Call, SkipRegisterEqualsValue,
    SkipRegisterNotEqualsValue, SkipRegisterEqualsRegister, UpdateRegister, AddToRegister,
    Copy, Or, And, Xor, SumRegisters, SubRegisters, ShiftRightRegisters, SubbRegisters,
    ShiftLeftRegisters, SkipRegisterNotEqualsRegister, SetMemoryAddressRegister, JumpToV0,
    RandToRegister, Draw, UpdateRamWithRegisterAsBCDRepresentation,
    BatchLoadRegisterWithRamValues, SetMemoryAddressRegisterToCharacter
  ]

  /** The first of ks whose matcher accepts op. */
  function Find(ks: seq<Instruction>, op: Opcode): (r: Option<Instruction>)
    ensures r.Some? ==> r.value in ks && Matches(r.value, op)
    ensures r.None? ==> forall k :: k in ks ==> !Matches(k, op)
    decreases |ks|
  {
    if ks == [] then None
    else if Matches(ks[0], op) then Some(ks[0])
    else Find(ks[1..], op)
  }

  /** `@instructions_map[InstructionId.new(code)]`. */
  function Lookup(op: Opcode): Option<Instruction>
  {
    Find(Registered, op)
  }

  // The fields of an opcode: `(opcode & 0x0F00) >> 8`, `(opcode & 0x00F0) >> 4`,
  // `opcode & 0x00FF` and `opcode & 0x0FFF`.

  function X(op: Opcode): (x: nat)
    ensures x < 16
  {
    ((op & 0x0F00) >> 8) as nat
  }

  function Y(op: Opcode): (y: nat)
    ensures y < 16
  {
    ((op & 0x00F0) >> 4) as nat
  }

  function KK(op: Opcode): (kk: nat)
    ensures kk < 256
  {
    (op & 0x00FF) as nat
  }

  function NNN(op: Opcode): (nnn: nat)
    ensures nnn < 4096
  {
    (op & 0x0FFF) as nat
  }

  /** A decoder written independently of the matchers, from the nibbles of the opcode:
      the high nibble selects a family, the low nibble or byte a member. */
  function Classify(op: Opcode): Option<Instruction>
  {
    var high, low, lowByte := op >> 12, op & 0xF, op & 0xFF;
    if high == 0x0 then
      if op == 0x00E0 then Some(ClearDisplay)
      else if op == 0x00EE then Some(ReturnFromSubroutine)
      else None
    else if high == 0x1 then Some(Jump)
    else if high == 0x2 then Some(Call)
    else if high == 0x3 then Some(SkipRegisterEqualsValue)
    else if high == 0x4 then Some(SkipRegisterNotEqualsValue)
    else if high == 0x5 then Some(SkipRegisterEqualsRegister)
    else if high == 0x6 then Some(UpdateRegister)
    else if high == 0x7 then Some(AddToRegister)
    else if high == 0x8 then
      if low == 0x0 then Some(Copy)
      else if low == 0x1 then Some(Or)
      else if low == 0x2 then Some(And)
      else if low == 0x3 then Some(Xor)
      else if low == 0x4 then Some(SumRegisters)
      else if low == 0x5 then Some(SubRegisters)
      else if low == 0x6 then Some(ShiftRightRegisters)
      else if low == 0x7 then Some(SubbRegisters)
      else if low == 0xE then Some(ShiftLeftRegisters)
      else None
    else if high == 0x9 then
      if low == 0x0 then Some(SkipRegisterNotEqualsRegister) else None
    else if high == 0xA then Some(SetMemoryAddressRegister)
    else if high == 0xB then Some(JumpToV0)
    else if high == 0xC then Some(RandToRegister)
    else if high == 0xD then Some(Draw)
    else if high == 0xF then
      if lowByte == 0x33 then Some(UpdateRamWithRegisterAsBCDRepresentation)
      else if lowByte == 0x65 then Some(BatchLoadRegisterWithRamValues)
      else if lowByte == 0x29 then Some(SetMemoryAddressRegisterToCharacter)
      else None
    else None
  }

  /** The matcher/decoder agreement for 00E0 and 00EE. */
  lemma ClassifiesSystemFamily(k: Instruction, op: Opcode)
    requires k.ClearDisplay? || k.ReturnFromSubroutine?
    ensures Matches(k, op) <==> Classify(op) == Some(k)
  {
  }

  /** The matcher/decoder agreement for 1nnn to 4xkk. */
  lemma ClassifiesJumpAndValueSkipFamilies(k: Instruction, op: Opcode)
    requires k.Jump? || k.Call? || k.SkipRegisterEqualsValue? || k.SkipRegisterNotEqualsValue?
    ensures Matches(k, op) <==> Classify(op) == Some(k)
  {
  }

  /** The matcher/decoder agreement for 5xy0 to 7xkk. */
  lemma ClassifiesRegisterSkipAndLoadFamilies(k: Instruction, op: Opcode)
    requires k.SkipRegisterEqualsRegister? || k.UpdateRegister? || k.AddToRegister?
    ensures Matches(k, op) <==> Classify(op) == Some(k)
  {
  }

  /** The matcher/decoder agreement for 8xy0 to 8xy3. */
  lemma ClassifiesLogicFamily(k: Instruction, op: Opcode)
    requires k.Copy? || k.Or? || k.And? || k.Xor?
    ensures Matches(k, op) <==> Classify(op) == Some(k)
  {
  }

  /** The matcher/decoder agreement for 8xy4 to 8xy6. */
  lemma ClassifiesArithmeticFamily(k: Instruction, op: Opcode)
    requires k.SumRegisters? || k.SubRegisters? || k.ShiftRightRegisters?
    ensures Matches(k, op) <==> Classify(op) == Some(k)
  {
  }

  /** The matcher/decoder agreement for 8xy7, 8xyE and 9xy0. */
  lemma ClassifiesShiftAndSkipFamilies(k: Instruction, op: Opcode)
    requires k.SubbRegisters? || k.ShiftLeftRegisters? || k.SkipRegisterNotEqualsRegister?
    ensures Matches(k, op) <==> Classify(op) == Some(k)
  {
  }

  /** The matcher/decoder agreement for Annn to Dxyn. */
  lemma ClassifiesAddressFamilies(k: Instruction, op: Opcode)
    requires k.SetMemoryAddressRegister? || k.JumpToV0? || k.RandToRegister? || k.Draw?
    ensures Matches(k, op) <==> Classify(op) == Some(k)
  {
  }

  /** The matcher/decoder agreement for Fx33, Fx65 and Fx29. */
  lemma ClassifiesMiscFamily(k: Instruction, op: Opcode)
    requires k.UpdateRamWithRegisterAsBCDRepresentation? || k.BatchLoadRegisterWithRamValues? || k.SetMemoryAddressRegisterToCharacter?
    ensures Matches(k, op) <==> Classify(op) == Some(k)
  {
  }

  /** A matcher accepts an opcode exactly when the nibble decoder picks that instruction. */
  lemma MatchesIffClassified(k: Instruction, op: Opcode)
    ensures Matches(k, op) <==> Classify(op) == Some(k)
  {
    if k.ClearDisplay? || k.ReturnFromSubroutine? {
      ClassifiesSystemFamily(k, op);
    } else if k.Jump? || k.Call? || k.SkipRegisterEqualsValue? || k.SkipRegisterNotEqualsValue? {
      ClassifiesJumpAndValueSkipFamilies(k, op);
    } else if k.SkipRegisterEqualsRegister? || k.UpdateRegister? || k.AddToRegister? {
      ClassifiesRegisterSkipAndLoadFamilies(k, op);
    } else if k.Copy? || k.Or? || k.And? || k.Xor? {
      ClassifiesLogicFamily(k, op);
    } else if k.SumRegisters? || k.SubRegisters? || k.ShiftRightRegisters? {
      ClassifiesArithmeticFamily(k, op);
    } else if k.SubbRegisters? || k.ShiftLeftRegisters? || k.SkipRegisterNotEqualsRegister? {
      ClassifiesShiftAndSkipFamilies(k, op);
    } else if k.SetMemoryAddressRegister? || k.JumpToV0? || k.RandToRegister? || k.Draw? {
      ClassifiesAddressFamilies(k, op);
    } else {
      ClassifiesMiscFamily(k, op);
    }
  }

  /** At most one of the registered matchers accepts any opcode. */
  lemma AtMostOneMatch(k1: Instruction, k2: Instruction, op: Opcode)
    requires Matches(k1, op) && Matches(k2, op)
    ensures k1 == k2
  {
    MatchesIffClassified(k1, op);
    MatchesIffClassified(k2, op);
  }

  /** Every instruction kind is registered. */
  lemma AllRegistered(k: Instruction)
    ensures k in Registered
  {
  }

  /** The lookup finds an instruction exactly when its matcher accepts the opcode. */
  lemma LookupFinds(op: Opcode, k: Instruction)
    ensures Lookup(op) == Some(k) <==> Matches(k, op)
  {
    AllRegistered(k);
    if Lookup(op).Some? && Matches(k, op) {
      AtMostOneMatch(k, Lookup(op).value, op);
    }
  }

  /** The lookup finds nothing exactly when no matcher accepts the opcode. */
  lemma LookupMisses(op: Opcode)
    ensures Lookup(op).None? <==> forall k :: !Matches(k, op)
  {
    if Lookup(op).None? {
      forall k ensures !Matches(k, op) {
        AllRegistered(k);
      }
    }
  }

  /** The lookup agrees with the nibble decoder. */
  lemma LookupClassifies(op: Opcode)
    ensures Lookup(op) == Classify(op)
  {
    if Classify(op).Some? {
      MatchesIffClassified(Classify(op).value, op);
      LookupFinds(op, Classify(op).value);
    } else if Lookup(op).Some? {
      MatchesIffClassified(Lookup(op).value, op);
    }
  }

  /** Whole families of opcodes that no instruction here implements find nothing: 0nnn
      other than 00E0 and 00EE, every Exkk (Ex9E and ExA1 among them), 8xy8 to 8xyD and
      8xyF, 9xyN with N other than 0, and every Fxkk other than Fx33, Fx65 and Fx29 (Fx07,
      Fx0A, Fx15, Fx18, Fx1E and Fx55 among them). 5xyN with N other than 0 is not among
      them: 5xy0's matcher only looks at the high nibble. */
  lemma UnimplementedOpcodes(op: Opcode)
    requires || (op >> 12 == 0x0 && op != 0x00E0 && op != 0x00EE)
             || op >> 12 == 0xE
             || (op >> 12 == 0x8 && op & 0xF >= 0x8 && op & 0xF != 0xE)
             || (op >> 12 == 0x9 && op & 0xF != 0)
             || (op >> 12 == 0xF && op & 0xFF != 0x33 && op & 0xFF != 0x65 && op & 0xFF != 0x29)
    ensures Lookup(op).None?
    ensures forall k :: !Matches(k, op)
  {
    if op >> 12 == 0x0 {
      assert Classify(op).None?;
    } else if op >> 12 == 0xE {
      assert Classify(op).None?;
    } else if op >> 12 == 0x8 {
      assert Classify(op).None?;
    } else if op >> 12 == 0x9 {
      assert Classify(op).None?;
    } else {
      assert Classify(op).None?;
    }
    LookupClassifies(op);
    LookupMisses(op);
  }

  lemma LooseSkipMatcher()
    ensures Lookup(0x5121) == Some(SkipRegisterEqualsRegister)
  {
    assert Matches(SkipRegisterEqualsRegister, 0x5121);
    LookupFinds(0x5121, SkipRegisterEqualsRegister);
  }
}
