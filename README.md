# CHIP-8 emulator core, modelled in Dafny

This project models the machine core of a small CHIP-8 emulator written in Ruby
(`src/application.rb`), and proves properties of that model. The core consists of:
- the bounded containers and their width checks: `Memory` (`Ram`, `Vram`), `Stack`,
  `Register`, the `Registers` bank, `ProgramCounter` and `MemoryAddress`;
- the opcode matchers (`InstructionId`) and the lookup the runner does with them;
- the 26 `execute` methods, from 00E0 to Fx65;
- one pass of `ProgramRunner#start`;
- the start-up script: `CHARS_MAP`, `load_fonts`, the copy loop of `load_rom`, and the
  construction of the parts.

The model follows the Ruby code as written, including where it departs from the CHIP-8
standard:
- The four skips (3xkk, 4xkk, 5xy0 and 9xy0) add 2 to PC only when the skip is taken.
- Jump, Call and ClearDisplay never add 2 to PC.
- 00EE only prints, and the stack has no pop.
- 7xkk and 8xyE write their result unmasked, so they raise once it exceeds 255.
- 8xy4, 8xy5 and 8xy7 only ever set VF to 1.
- 8xy5 and 8xy7 store a raw difference that can be negative. `Register#update` accepts
  it, because Ruby's `x >> 8` of a negative number is -1, which is not `> 0`.
- Bnnn adds nnn + V0 to PC.
- Dxyn only adds 2 to PC.
- `Register#add` has no width check.
- Because registers can be negative, 8xy3 on two negative registers can produce a value
  above 255 and raise (-1 ^ -510 is 509), and Fx33 on a negative register raises before
  it writes anything.

Every `OverflowError` is an error outcome. Across the files the model uses:
- `false` from a method;
- `Overflow` in a `Result`;
- `Raised(state)` in an instruction `Outcome`, which keeps the partial effects made
  before the raise.

Ruby integers are unbounded and register values can be negative. Module `Bits`
therefore defines `>>`, `<<`, `&`, `|` and `^` on `int` with Ruby's infinite
two's-complement meaning.

Files and modules:
- `wrappers.dfy` (`Wrappers`): `Option` and `Result`.
- `bits.dfy` (`Bits`): Ruby's integer bit operations and their laws.
- `memory.dfy` (`Memories`): `Memory#write` and `Memory#read` as functions, proved about
  the class `Memory`, which holds the buffer in an array.
- `stack.dfy` (`CallStack`): `Stack#push`.
- `registers.dfy` (`RegisterFile`): `Register`, `Registers`, `ProgramCounter` and
  `MemoryAddress`.
- `decoding.dfy` (`Decoding`): the matchers, the field extraction and the lookup, with
  an independent classifier.
- `semantics.dfy` (`Semantics`): the machine state and every instruction as a function
  from state to outcome, plus one step of the runner.
- `laws.dfy` (`InstructionLaws`): what each instruction does, in closed form.
- `invariant.dfy` (`Invariant`): the bounds the width checks keep, preserved by every
  instruction and every step.
- `runner.dfy` (`Runner`): `ProgramRunner` over the mutable parts. Every `execute` here
  is a method proved equal to its `Semantics` function.
- `boot.dfy` (`Boot`): the font table, the byte-copy loops and the boot sequence.

## Model

| member | source | states |
|---|---|---|
| Bits.ShrPositive | src/application.rb:97 | `data >> n > 0` holds exactly when data >= 2^n, so negative data passes the checks of `Stack#push` and `Register#update` |
| Bits.ShrZero | src/application.rb:70-72 | `data >> n == 0` holds exactly when 0 <= data < 2^n, so `Memory#write` rejects negative data as well as data that is too wide |
| Bits.OrBelowShift | src/application.rb:57 | `(acc << 8) \| byte` is acc * 256 + byte when the byte fits in 8 bits |
| Bits.AndLowByte | src/application.rb:515 | `sum & 0xFF` is sum mod 256, also for a negative sum |
| Bits.AndLowBit | src/application.rb:560 | `v & 0x01` is the low bit v mod 2 |
| Bits.AndBit7 | src/application.rb:605 | `v & 0x80 != 0` holds exactly when v mod 256 >= 128 |
| Bits.AndBounded | src/application.rb:470 | `&` of two n-bit naturals is a natural no larger than either operand |
| Bits.OrBounded | src/application.rb:448 | `\|` of two n-bit naturals is an n-bit natural no smaller than either operand |
| Bits.XorBounded | src/application.rb:492 | `^` of two n-bit naturals is an n-bit natural |
| Bits.OrNegative | src/application.rb:448 | `a \| b` is negative when either operand is |
| Bits.AndNegative | src/application.rb:470 | `a & b` of two negatives is negative |
| Bits.AndNatural | src/application.rb:470 | `a & b` with a natural operand lies between 0 and that operand, whatever the sign of the other |
| Bits.XorSign | src/application.rb:492 | `a ^ b` is negative exactly when the operands have opposite signs |
| Bits.XorMinusOne | src/application.rb:492 | `-1 ^ a` is -1 - a, every bit flipped |
| Bits.Shr | src/application.rb:71 | no contract; Ruby `>>`, an arithmetic shift rounding toward negative infinity; `Bits.ShrPositive` and `Bits.ShrZero` state it |
| Bits.Shl | src/application.rb:57 | no contract; Ruby `<<`; `Bits.OrBelowShift` states it |
| Bits.And | src/application.rb:470 | no contract; Ruby `&` on unbounded two's complement; `Bits.AndLowByte`, `Bits.AndBounded`, `Bits.AndNatural` and `Bits.AndNegative` state it |
| Bits.Or | src/application.rb:448 | no contract; Ruby `\|`; `Bits.OrBelowShift`, `Bits.OrBounded` and `Bits.OrNegative` state it |
| Bits.Xor | src/application.rb:492 | no contract; Ruby `^`; `Bits.XorBounded`, `Bits.XorSign` and `Bits.XorMinusOne` state it |
| Memories.Written | src/application.rb:46-50 | a write succeeds iff 0 <= position < size and the data fits the cell width; on success only cell `position` changes, to data, and the buffer keeps its size and cell widths |
| Memories.InjectPacks | src/application.rb:57 | the `inject` fold over bytes of at most 8 bits is big-endian base-256 packing |
| Memories.ReadPacks | src/application.rb:57 | folding the length + 1 cells of the inclusive Ruby range and shifting right by 8 leaves the packing of the first `length` cells |
| Memories.ReadCells | src/application.rb:54-57 | a read succeeds iff address >= 0 and address + length < size; it returns the big-endian packing of the cells: `buf[a]` for one byte, `256 * buf[a] + buf[a + 1]` (below 0x10000) for two |
| Memories.Inject | src/application.rb:57 | no contract; the `inject` fold `(acc << 8) \| byte`; `Memories.InjectPacks` states it |
| Memories.Pack | src/application.rb:57 | no contract; big-endian base-256 value of the bytes, the reference `Memories.InjectPacks` and `Memories.ReadCells` compare with |
| Memories.Memory.Ram | src/application.rb:77-81 | 4096 cells of 8 bits, all 0 |
| Memories.Memory.Vram | src/application.rb:83-87 | 2048 cells of 1 bit, all 0 |
| Memories.Memory.Write | src/application.rb:46-50 | the new buffer is the one `Written` gives, or the call raises and the buffer is unchanged; the cells keep their width |
| Memories.Memory.Read | src/application.rb:54-57 | returns `ReadCells` of the buffer and changes nothing |
| CallStack.Pushed | src/application.rb:96-99 | a push succeeds iff `data >> width` is not positive and fewer than `levels` entries are stored; the new top is data, one entry longer, with the earlier entries unchanged |
| CallStack.Stack.constructor | src/application.rb:90-94 | an empty stack with the given levels and width |
| CallStack.Stack.Push | src/application.rb:96-99 | the new entries are those `Pushed` gives, or the call raises and nothing changes |
| RegisterFile.Accepts | src/application.rb:114-117 | `Register#update` accepts data exactly when data < 2^width, negative data included |
| RegisterFile.ReadBank | src/application.rb:147-150 | reading register `index` succeeds iff 0 <= index < count, and gives that register's value |
| RegisterFile.UpdatedBank | src/application.rb:152-155 | updating register `index` succeeds iff the index is in range and the data is accepted; only that register changes, and it becomes data |
| RegisterFile.Register.ProgramCounter | src/application.rb:162-166 | a 16-bit register starting at 0x200 |
| RegisterFile.Register.MemoryAddress | src/application.rb:168-172 | a 12-bit register starting at 0 |
| RegisterFile.Register.Update | src/application.rb:114-117 | succeeds exactly when `Accepts` holds; the value becomes data on success and is kept otherwise |
| RegisterFile.Register.Add | src/application.rb:123-125 | the value grows by d, with no width check |
| RegisterFile.Registers.constructor | src/application.rb:142-145 | `count` registers of the given width, all 0 |
| RegisterFile.Registers.ReadRegister | src/application.rb:147-150 | returns `ReadBank` of the values |
| RegisterFile.Registers.UpdateRegister | src/application.rb:152-155 | the new values are those `UpdatedBank` gives, or the call raises and nothing changes |
| Decoding.X | src/application.rb:509 | `(opcode & 0x0F00) >> 8` is a register index below 16 |
| Decoding.Y | src/application.rb:510 | `(opcode & 0x00F0) >> 4` is a register index below 16 |
| Decoding.KK | src/application.rb:384 | `opcode & 0x00FF` is below 256 |
| Decoding.NNN | src/application.rb:641 | `opcode & 0x0FFF` is below 4096 |
| Decoding.Matches | src/application.rb:266-763 | no contract; the `InstructionId` comparator of each instruction; `Decoding.MatchesIffClassified` and `Decoding.AtMostOneMatch` state it |
| Decoding.Lookup | src/application.rb:210-222 | no contract; `@instructions_map[InstructionId.new(code)]` as a search of the list in `Decoding.Registered`; `Decoding.LookupFinds`, `Decoding.LookupMisses` and `Decoding.LookupClassifies` state it |
| Decoding.Classify | src/application.rb:266-763 | no contract; the independent nibble decoder `Decoding.MatchesIffClassified` compares the matchers with |
| Decoding.Find | src/application.rb:186-199 | the lookup finds an instruction of the list whose matcher accepts the opcode, or reports that none of them does |
| Decoding.ClassifiesSystemFamily | src/application.rb:266-281 | the literal matchers of 00E0 and 00EE accept exactly the opcodes the classifier assigns to them |
| Decoding.ClassifiesJumpAndValueSkipFamilies | src/application.rb:294-343 | the matchers of 1nnn, 2nnn, 3xkk and 4xkk accept exactly the opcodes the classifier assigns to them |
| Decoding.ClassifiesRegisterSkipAndLoadFamilies | src/application.rb:360-397 | the matchers of 5xy0, 6xkk and 7xkk agree with the classifier |
| Decoding.ClassifiesLogicFamily | src/application.rb:417-482 | the matchers of 8xy0 to 8xy3 agree with the classifier |
| Decoding.ClassifiesArithmeticFamily | src/application.rb:504-551 | the matchers of 8xy4, 8xy5 and 8xy6 agree with the classifier |
| Decoding.ClassifiesShiftAndSkipFamilies | src/application.rb:573-618 | the matchers of 8xy7, 8xyE and 9xy0 agree with the classifier |
| Decoding.ClassifiesAddressFamilies | src/application.rb:636-691 | the matchers of Annn, Bnnn, Cxkk and Dxyn agree with the classifier |
| Decoding.ClassifiesMiscFamily | src/application.rb:713-763 | the matchers of Fx33, Fx65 and Fx29 agree with the classifier |
| Decoding.MatchesIffClassified | src/application.rb:186-195 | every matcher accepts exactly the opcodes the independent classifier assigns to its instruction |
| Decoding.AtMostOneMatch | src/application.rb:186-195 | no 16-bit opcode is accepted by two different instructions, so the lookup is unambiguous |
| Decoding.AllRegistered | src/application.rb:840-867 | every one of the 26 instructions is in the list the runner is given |
| Decoding.LookupFinds | src/application.rb:210-222 | the lookup returns instruction k exactly when k's matcher accepts the opcode |
| Decoding.LookupMisses | src/application.rb:210-222 | the lookup finds nothing exactly when no matcher accepts the opcode |
| Decoding.LookupClassifies | src/application.rb:210-222 | the lookup agrees with the classifier on every opcode |
| Decoding.UnimplementedOpcodes | src/application.rb:840-867 | whole families find no instruction and are accepted by no matcher: 0nnn other than 00E0 and 00EE, every Exkk, 8xy8 to 8xyD and 8xyF, 9xyN with N not 0, and every Fxkk other than Fx33, Fx65 and Fx29 |
| Decoding.LooseSkipMatcher | src/application.rb:360 | the 5xy0 matcher ignores the low nibble, so 0x5121 runs as 5xy0 |
| Semantics.SetRegisterAgrees | src/application.rb:152-155 | the register update of the machine state is `Registers#update_register` on the 16 8-bit registers, touching nothing else |
| Semantics.SetPcAndIAgree | src/application.rb:162-172 | PC and I updates succeed exactly when `Register#update` accepts 16 and 12 bits, and then change only PC or I |
| Semantics.WriteRamAgrees | src/application.rb:46-50 | a RAM write of the machine state is `Memory#write` on 8-bit cells, touching nothing else |
| Semantics.PushStackAgrees | src/application.rb:96-99 | a stack push of the machine state is `Stack#push` with 16 levels of 16 bits, touching nothing else |
| Semantics.ReadByteAgrees | src/application.rb:54-57 | the one-byte read at I is `Memory#read` with length 1 |
| Semantics.LoadRegisters | src/application.rb:770-774 | the passes of the Fx65 loop change only the registers and I, and keep 16 registers |
| Semantics.FetchAgrees | src/application.rb:221 | the fetch is `Memory#read` of two bytes at PC, read as a 16-bit opcode |
| Semantics.SetRegister | src/application.rb:152-155 | no contract; `registers.update_register`; `Semantics.SetRegisterAgrees` and `Invariant.SetRegisterConsistent` state it |
| Semantics.SetPc | src/application.rb:114-117 | no contract; `pc.update`; `Semantics.SetPcAndIAgree` states it |
| Semantics.SetI | src/application.rb:114-117 | no contract; `ma.update`; `Semantics.SetPcAndIAgree` and `Invariant.SetIConsistent` state it |
| Semantics.AddPc | src/application.rb:123-125 | no contract; `pc.add`, adding with no width check; `Runner.ProgramRunner.AddPc` is proved against it |
| Semantics.WriteRam | src/application.rb:46-50 | no contract; `ram.write`; `Semantics.WriteRamAgrees` and `Invariant.WriteRamConsistent` state it |
| Semantics.PushStack | src/application.rb:96-99 | no contract; `stack.push`; `Semantics.PushStackAgrees` states it |
| Semantics.SetFlagWhen | src/application.rb:516 | no contract; `update_register(0x0F, 0x01) if cond`; `InstructionLaws.FlagNeverCleared` states it |
| Semantics.ReadByte | src/application.rb:772 | no contract; `ram.read(register: ma)`; `Semantics.ReadByteAgrees` states it |
| Semantics.ClearDisplay | src/application.rb:269-272 | no contract; the `execute` method as a function of the state; InstructionLaws.StubEffects and Invariant.ClearDisplayConsistent state it |
| Semantics.ReturnFromSubroutine | src/application.rb:284-287 | no contract; the `execute` method as a function of the state; InstructionLaws.StubEffects and Invariant.ReturnFromSubroutineConsistent state it |
| Semantics.Jump | src/application.rb:297-300 | no contract; the `execute` method as a function of the state; InstructionLaws.JumpEffect and Invariant.JumpConsistent state it |
| Semantics.Call | src/application.rb:312-316 | no contract; the `execute` method as a function of the state; InstructionLaws.CallEffect and Invariant.CallConsistent state it |
| Semantics.SkipRegisterEqualsValue | src/application.rb:329-333 | no contract; the `execute` method as a function of the state; InstructionLaws.SkipValueComplementary and Invariant.SkipRegisterEqualsValueConsistent state it |
| Semantics.SkipRegisterNotEqualsValue | src/application.rb:346-350 | no contract; the `execute` method as a function of the state; InstructionLaws.SkipValueComplementary and Invariant.SkipRegisterNotEqualsValueConsistent state it |
| Semantics.SkipRegisterEqualsRegister | src/application.rb:363-368 | no contract; the `execute` method as a function of the state; InstructionLaws.SkipRegisterEqualsRegisterEffect and InstructionLaws.SkipRegisterComplementary and Invariant.SkipRegisterEqualsRegisterConsistent state it |
| Semantics.UpdateRegister | src/application.rb:381-387 | no contract; the `execute` method as a function of the state; InstructionLaws.UpdateRegisterEffect and Invariant.UpdateRegisterConsistent state it |
| Semantics.AddToRegister | src/application.rb:400-407 | no contract; the `execute` method as a function of the state; InstructionLaws.AddToRegisterEffect and Invariant.AddToRegisterConsistent state it |
| Semantics.Copy | src/application.rb:420-428 | no contract; the `execute` method as a function of the state; InstructionLaws.CopyEffect and Invariant.CopyConsistent state it |
| Semantics.Or | src/application.rb:441-450 | no contract; the `execute` method as a function of the state; InstructionLaws.OrEffect and Invariant.OrConsistent state it |
| Semantics.And | src/application.rb:463-472 | no contract; the `execute` method as a function of the state; InstructionLaws.AndEffect and Invariant.AndConsistent state it |
| Semantics.Xor | src/application.rb:485-494 | no contract; the `execute` method as a function of the state; InstructionLaws.XorEffect and InstructionLaws.XorRaisesOnNegatives and Invariant.XorConsistent state it |
| Semantics.SumRegisters | src/application.rb:507-518 | no contract; the `execute` method as a function of the state; InstructionLaws.SumRegistersEffect and Invariant.SumRegistersConsistent state it |
| Semantics.SubRegisters | src/application.rb:531-541 | no contract; the `execute` method as a function of the state; InstructionLaws.SubRegistersEffect and InstructionLaws.SubtractionGoesNegative and Invariant.SubRegistersConsistent state it |
| Semantics.ShiftRightRegisters | src/application.rb:554-563 | no contract; the `execute` method as a function of the state; InstructionLaws.ShiftRightEffect and Invariant.ShiftRightRegistersConsistent state it |
| Semantics.SubbRegisters | src/application.rb:576-586 | no contract; the `execute` method as a function of the state; InstructionLaws.SubbRegistersEffect and Invariant.SubbRegistersConsistent state it |
| Semantics.ShiftLeftRegisters | src/application.rb:599-608 | no contract; the `execute` method as a function of the state; InstructionLaws.ShiftLeftEffect and Invariant.ShiftLeftRegistersConsistent state it |
| Semantics.SkipRegisterNotEqualsRegister | src/application.rb:621-626 | no contract; the `execute` method as a function of the state; InstructionLaws.SkipRegisterComplementary and Invariant.SkipRegisterNotEqualsRegisterConsistent state it |
| Semantics.SetMemoryAddressRegister | src/application.rb:639-644 | no contract; the `execute` method as a function of the state; InstructionLaws.SetMemoryAddressRegisterEffect and Invariant.SetMemoryAddressRegisterConsistent state it |
| Semantics.JumpToV0 | src/application.rb:657-660 | no contract; the `execute` method as a function of the state; InstructionLaws.JumpToV0Effect and Invariant.JumpToV0Consistent state it |
| Semantics.RandToRegister | src/application.rb:673-679 | no contract; the `execute` method as a function of the state; InstructionLaws.RandToRegisterEffect and Invariant.RandToRegisterConsistent state it |
| Semantics.Draw | src/application.rb:694-701 | no contract; the `execute` method as a function of the state; InstructionLaws.StubEffects and Invariant.DrawConsistent state it |
| Semantics.SetMemoryAddressRegisterToCharacter | src/application.rb:716-722 | no contract; the `execute` method as a function of the state; InstructionLaws.CharacterEffect and Boot.CharacterPointsAtGlyph and Invariant.SetMemoryAddressRegisterToCharacterConsistent state it |
| Semantics.UpdateRamWithRegisterAsBCDRepresentation | src/application.rb:739-749 | no contract; the `execute` method as a function of the state; InstructionLaws.BcdEffect, InstructionLaws.BcdRaises and InstructionLaws.BcdRaisesOnNegative and Invariant.UpdateRamWithRegisterAsBCDRepresentationConsistent state it |
| Semantics.BatchLoadRegisterWithRamValues | src/application.rb:766-776 | no contract; the `execute` method as a function of the state; InstructionLaws.BatchLoadEffect and InstructionLaws.BatchLoadRaises and Invariant.BatchLoadRegisterWithRamValuesConsistent state it |
| Semantics.Execute | src/application.rb:226 | no contract; `instruction.execute(opcode)`; InstructionLaws.ExecuteGuarded and Invariant.ExecuteConsistent state it |
| Semantics.Fetch | src/application.rb:221 | no contract; `@ram.read(register: @pc, length: 2)`; Semantics.FetchAgrees states it |
| Semantics.Step | src/application.rb:220-227 | no contract; one pass of `start`; InstructionLaws.StepRunsMatchingInstruction, InstructionLaws.StepIgnoresUnknownOpcode, InstructionLaws.StepRaisesOutsideRam and Invariant.StepConsistent state it |
| InstructionLaws.ExecuteGuarded | src/application.rb:253-255 | every instruction leaves the state unchanged when its own matcher rejects the opcode |
| InstructionLaws.ControlGuarded | src/application.rb:253-255 | the guard, for 00E0 to 7xkk |
| InstructionLaws.ArithmeticGuarded | src/application.rb:253-255 | the guard, for 8xy0 to 9xy0 |
| InstructionLaws.AddressGuarded | src/application.rb:253-255 | the guard, for Annn to Fx65 |
| InstructionLaws.StepRunsMatchingInstruction | src/application.rb:220-227 | a step runs the instruction whose matcher accepts the fetched word |
| InstructionLaws.StepIgnoresUnknownOpcode | src/application.rb:222-224 | a word no matcher accepts only warns, and the state is unchanged (PC too) |
| InstructionLaws.StepRaisesOutsideRam | src/application.rb:221 | the fetch raises unless 0 <= PC and PC + 2 < 4096 |
| InstructionLaws.JumpEffect | src/application.rb:297-300 | 1nnn sets PC to nnn and does not add 2 |
| InstructionLaws.CallEffect | src/application.rb:312-316 | 2nnn pushes PC and sets PC to nnn when the stack has room and PC fits 16 bits; otherwise it raises and changes nothing |
| InstructionLaws.SkipValueComplementary | src/application.rb:329-350 | 3xkk adds 2 to PC exactly when Vx == kk and 4xkk exactly when Vx != kk; otherwise PC does not move |
| InstructionLaws.SkipRegisterComplementary | src/application.rb:363-368 | 5xy0 adds 2 to PC exactly when Vx == Vy and 9xy0 exactly when they differ; otherwise PC does not move |
| InstructionLaws.SkipRegisterEqualsRegisterEffect | src/application.rb:360-368 | 5xyN, for any last nibble N the matcher admits, adds 2 to PC exactly when Vx == Vy and otherwise changes nothing |
| InstructionLaws.JumpToV0Effect | src/application.rb:657-660 | Bnnn adds nnn + V0 to PC |
| InstructionLaws.StubEffects | src/application.rb:269-287 | 00E0 and 00EE change no modelled state; Dxyn only adds 2 to PC |
| InstructionLaws.UpdateRegisterEffect | src/application.rb:381-387 | 6xkk sets Vx to kk and adds 2 to PC |
| InstructionLaws.AddToRegisterEffect | src/application.rb:400-407 | 7xkk sets Vx to Vx + kk without masking, so it raises, changing nothing, when the sum exceeds 255 |
| InstructionLaws.CopyEffect | src/application.rb:420-428 | 8xy0 sets Vx to Vy and adds 2 to PC |
| InstructionLaws.OrEffect | src/application.rb:441-450 | on every state whose registers are below 256 (negative ones included), 8xy1 sets Vx to Vx \| Vy and adds 2 to PC, never raising; on byte registers the result is a byte no smaller than either operand, and with a negative operand it is negative |
| InstructionLaws.AndEffect | src/application.rb:463-472 | on every state whose registers are below 256 (negative ones included), 8xy2 sets Vx to Vx & Vy and adds 2 to PC, never raising; with a natural operand the result lies between 0 and that operand, and of two negatives it is negative |
| InstructionLaws.XorEffect | src/application.rb:485-494 | on every state whose registers are below 256, 8xy3 sets Vx to Vx ^ Vy and adds 2 to PC when that is below 256, and raises changing nothing otherwise; the result is a byte on byte registers and negative exactly when one operand is |
| InstructionLaws.XorRaisesOnNegatives | src/application.rb:485-494 | -1 ^ -510 is 509, so 8013 on V0 = -1 and V1 = -510 (values 8xy5 and 8xy7 can leave) raises, changing nothing |
| InstructionLaws.SumRegistersEffect | src/application.rb:507-518 | 8xy4 sets Vx to (Vx + Vy) mod 256 and VF to 1 when the sum exceeds 255, leaves VF as it was otherwise, and adds 2 to PC |
| InstructionLaws.SubRegistersEffect | src/application.rb:531-541 | 8xy5 sets VF to 1 when Vx > Vy, then Vx to the raw Vx - Vy; it raises, with VF already set, when that exceeds 255 |
| InstructionLaws.SubtractionGoesNegative | src/application.rb:538-539 | with byte registers and Vx < Vy, 8xy5 completes and leaves a negative Vx |
| InstructionLaws.SubbRegistersEffect | src/application.rb:576-586 | 8xy7 sets VF to 1 when Vy > Vx, then Vx to the raw Vy - Vx; it raises, with VF already set, when that exceeds 255 |
| InstructionLaws.FlagNeverCleared | src/application.rb:516-583 | 8xy4, 8xy5 and 8xy7 leave VF either 1 or its old value, whatever the opcode, when x is not F |
| InstructionLaws.ShiftRightEffect | src/application.rb:554-563 | 8xy6 sets VF to Vy mod 2, then Vx to Vy / 2, and adds 2 to PC |
| InstructionLaws.ShiftLeftEffect | src/application.rb:599-608 | 8xyE sets VF from bit 7 of Vy, then Vx to 2 * Vy unmasked, raising when that exceeds 255 |
| InstructionLaws.ShiftLeftRaisesOnBit7 | src/application.rb:605-606 | with byte registers, 8xyE raises exactly when Vy >= 0x80 |
| InstructionLaws.RandToRegisterEffect | src/application.rb:673-679 | Cxkk sets Vx to kk & r for the random byte r, a value no larger than either, and adds 2 to PC |
| InstructionLaws.SetMemoryAddressRegisterEffect | src/application.rb:639-644 | Annn sets I to nnn and adds 2 to PC |
| InstructionLaws.CharacterEffect | src/application.rb:716-722 | Fx29 sets I to 5 * Vx and adds 2 to PC; for a digit, the 5 rows lie within the 80-byte font table |
| InstructionLaws.DecimalDigits | src/application.rb:745-747 | for 0 <= v < 1000 the three written values are decimal digits whose value is v |
| InstructionLaws.BcdEffect | src/application.rb:739-749 | for 0 <= Vx and 0 <= I with I + 2 < 4096, Fx33 writes the hundreds, tens and units digits of Vx to RAM[I], RAM[I + 1], RAM[I + 2] and adds 2 to PC |
| InstructionLaws.BcdRaises | src/application.rb:745-747 | Fx33 raises when I < 0 or I + 2 is out of RAM, with the registers, I and PC unchanged |
| InstructionLaws.BcdRaisesOnNegative | src/application.rb:745 | Fx33 on a negative Vx raises before writing anything, because the rounded-down hundreds digit is negative and `Memory#write` rejects it |
| InstructionLaws.LoadRegistersEffect | src/application.rb:770-774 | passes index..last of the Fx65 loop set V[j] to RAM[I + j - index], set I past the bytes read, and keep the other registers |
| InstructionLaws.LoadRegistersRaises | src/application.rb:771-772 | the loop raises when a read would reach I + 1 >= 4096 |
| InstructionLaws.BatchLoadEffect | src/application.rb:766-776 | Fx65 sets V[j] to old RAM[I + j] for j <= x, sets I to old I + x + 1, keeps the registers above x, and adds 2 to PC |
| InstructionLaws.BatchLoadRaises | src/application.rb:770-775 | Fx65 raises when the reads leave RAM, without moving PC |
| Invariant.SetRegisterConsistent | src/application.rb:152-155 | a register update keeps every register below 256 |
| Invariant.SetIConsistent | src/application.rb:168-172 | an update of I keeps it below 4096 |
| Invariant.WriteRamConsistent | src/application.rb:46-50 | a RAM write keeps every cell a byte |
| Invariant.LoadRegistersConsistent | src/application.rb:770-774 | the Fx65 loop keeps the invariant |
| Invariant.ClearDisplayConsistent | src/application.rb:269-272 | 00E0 keeps the invariant |
| Invariant.ReturnFromSubroutineConsistent | src/application.rb:284-287 | 00EE keeps the invariant |
| Invariant.JumpConsistent | src/application.rb:297-300 | 1nnn keeps the invariant |
| Invariant.CallConsistent | src/application.rb:312-316 | 2nnn keeps at most 16 entries of 16 bits on the stack |
| Invariant.SkipRegisterEqualsValueConsistent | src/application.rb:329-333 | 3xkk keeps the invariant |
| Invariant.SkipRegisterNotEqualsValueConsistent | src/application.rb:346-350 | 4xkk keeps the invariant |
| Invariant.SkipRegisterEqualsRegisterConsistent | src/application.rb:363-368 | 5xy0 keeps the invariant |
| Invariant.UpdateRegisterConsistent | src/application.rb:381-387 | 6xkk keeps the invariant |
| Invariant.AddToRegisterConsistent | src/application.rb:400-407 | 7xkk keeps the invariant |
| Invariant.CopyConsistent | src/application.rb:420-428 | 8xy0 keeps the invariant |
| Invariant.OrConsistent | src/application.rb:441-450 | 8xy1 keeps the invariant |
| Invariant.AndConsistent | src/application.rb:463-472 | 8xy2 keeps the invariant |
| Invariant.XorConsistent | src/application.rb:485-494 | 8xy3 keeps the invariant |
| Invariant.SumRegistersConsistent | src/application.rb:507-518 | 8xy4 keeps the invariant |
| Invariant.SubRegistersConsistent | src/application.rb:531-541 | 8xy5 keeps the invariant (registers can go negative, never above 255) |
| Invariant.ShiftRightRegistersConsistent | src/application.rb:554-563 | 8xy6 keeps the invariant |
| Invariant.SubbRegistersConsistent | src/application.rb:576-586 | 8xy7 keeps the invariant |
| Invariant.ShiftLeftRegistersConsistent | src/application.rb:599-608 | 8xyE keeps the invariant |
| Invariant.SkipRegisterNotEqualsRegisterConsistent | src/application.rb:621-626 | 9xy0 keeps the invariant |
| Invariant.SetMemoryAddressRegisterConsistent | src/application.rb:639-644 | Annn keeps the invariant |
| Invariant.JumpToV0Consistent | src/application.rb:657-660 | Bnnn keeps the invariant |
| Invariant.RandToRegisterConsistent | src/application.rb:673-679 | Cxkk keeps the invariant |
| Invariant.DrawConsistent | src/application.rb:694-701 | Dxyn keeps the invariant |
| Invariant.UpdateRamWithRegisterAsBCDRepresentationConsistent | src/application.rb:739-749 | Fx33 keeps the invariant |
| Invariant.BatchLoadRegisterWithRamValuesConsistent | src/application.rb:766-776 | Fx65 keeps the invariant |
| Invariant.SetMemoryAddressRegisterToCharacterConsistent | src/application.rb:716-722 | Fx29 keeps the invariant |
| Invariant.ExecuteConsistent | src/application.rb:294-776 | every instruction, completing or raising, keeps registers below 256, I below 4096, and at most 16 stack entries of 16 bits |
| Invariant.StepConsistent | src/application.rb:220-228 | so does every pass of the runner loop |
| Runner.ProgramRunner.constructor | src/application.rb:209-216 | the runner keeps the parts it is given |
| Runner.ProgramRunner.SetRegister | src/application.rb:152-155 | `@registers.update_register` on the bank is the register update of the machine state |
| Runner.ProgramRunner.SetFlagWhen | src/application.rb:516 | `update_register(0x0F, 0x01) if cond` |
| Runner.ProgramRunner.SetPc | src/application.rb:114-117 | `@pc.update` is the PC update of the machine state |
| Runner.ProgramRunner.SetI | src/application.rb:114-117 | `@ma.update` is the I update of the machine state |
| Runner.ProgramRunner.AddPc | src/application.rb:123-125 | `@pc.add` adds to PC and changes nothing else |
| Runner.ProgramRunner.WriteRam | src/application.rb:46-50 | `@ram.write` is the RAM write of the machine state |
| Runner.ProgramRunner.PushStack | src/application.rb:96-99 | `@stack.push` is the push of the machine state |
| Runner.ProgramRunner.ReadByte | src/application.rb:772 | `@ram.read(register: @ma)` reads the byte at I |
| Runner.ProgramRunner.ClearDisplay | src/application.rb:269-272 | 00E0 on the parts ends as `Semantics.ClearDisplay` |
| Runner.ProgramRunner.ReturnFromSubroutine | src/application.rb:284-287 | 00EE on the parts ends as its function |
| Runner.ProgramRunner.Jump | src/application.rb:297-300 | 1nnn on the parts ends as its function |
| Runner.ProgramRunner.Call | src/application.rb:312-316 | 2nnn on the parts ends as its function |
| Runner.ProgramRunner.SkipRegisterEqualsValue | src/application.rb:329-333 | 3xkk on the parts ends as its function |
| Runner.ProgramRunner.SkipRegisterNotEqualsValue | src/application.rb:346-350 | 4xkk on the parts ends as its function |
| Runner.ProgramRunner.SkipRegisterEqualsRegister | src/application.rb:363-368 | 5xy0 on the parts ends as its function |
| Runner.ProgramRunner.UpdateRegister | src/application.rb:381-387 | 6xkk on the parts ends as its function |
| Runner.ProgramRunner.AddToRegister | src/application.rb:400-407 | 7xkk on the parts ends as its function |
| Runner.ProgramRunner.Copy | src/application.rb:420-428 | 8xy0 on the parts ends as its function |
| Runner.ProgramRunner.Or | src/application.rb:441-450 | 8xy1 on the parts ends as its function |
| Runner.ProgramRunner.And | src/application.rb:463-472 | 8xy2 on the parts ends as its function |
| Runner.ProgramRunner.Xor | src/application.rb:485-494 | 8xy3 on the parts ends as its function |
| Runner.ProgramRunner.SumRegisters | src/application.rb:507-518 | 8xy4 on the parts ends as its function, including a raise between its two updates |
| Runner.ProgramRunner.SubRegisters | src/application.rb:531-541 | 8xy5 on the parts ends as its function |
| Runner.ProgramRunner.ShiftRightRegisters | src/application.rb:554-563 | 8xy6 on the parts ends as its function |
| Runner.ProgramRunner.SubbRegisters | src/application.rb:576-586 | 8xy7 on the parts ends as its function |
| Runner.ProgramRunner.ShiftLeftRegisters | src/application.rb:599-608 | 8xyE on the parts ends as its function |
| Runner.ProgramRunner.SkipRegisterNotEqualsRegister | src/application.rb:621-626 | 9xy0 on the parts ends as its function |
| Runner.ProgramRunner.SetMemoryAddressRegister | src/application.rb:639-644 | Annn on the parts ends as its function |
| Runner.ProgramRunner.JumpToV0 | src/application.rb:657-660 | Bnnn on the parts ends as its function |
| Runner.ProgramRunner.RandToRegister | src/application.rb:673-679 | Cxkk on the parts ends as its function |
| Runner.ProgramRunner.Draw | src/application.rb:694-701 | Dxyn on the parts ends as its function |
| Runner.ProgramRunner.SetMemoryAddressRegisterToCharacter | src/application.rb:716-722 | Fx29 on the parts ends as its function |
| Runner.ProgramRunner.UpdateRamWithRegisterAsBCDRepresentation | src/application.rb:739-749 | Fx33 on the parts ends as its function, stopping at the first write that raises |
| Runner.ProgramRunner.BatchLoadRegisterWithRamValues | src/application.rb:766-776 | the `upto` loop of Fx65 on the parts ends as its function, stopping at the first pass that raises |
| Runner.ProgramRunner.Execute | src/application.rb:226 | `instruction.execute(opcode)` ends as `Semantics.Execute` |
| Runner.ProgramRunner.Step | src/application.rb:220-228 | one pass of `start` (read two bytes at PC, look up the word, execute what is found) ends as `Semantics.Step` |
| Boot.LoadBytes | src/application.rb:823-836 | a byte copy keeps the size of the RAM |
| Boot.LoadBytesContents | src/application.rb:823-836 | a byte copy succeeds iff it fits from its start on; either way it has written the bytes that fit, and no other cell changes |
| Boot.LoadBytesFits | src/application.rb:823-836 | a byte copy keeps every cell a byte |
| Boot.LoadedInPlace | src/application.rb:823-836 | a copy that fits puts the bytes at start onwards, and the cells before and after are unchanged |
| Boot.WriteBytes | src/application.rb:823-836 | the copy loop leaves the RAM `LoadBytes` gives and reports whether every write succeeded |
| Boot.FontsInPlace | src/application.rb:1-18 | the 80-byte font table (the constant `Boot.CharsMap`, byte for byte the `CHARS_MAP` of these lines) fits a 4096-byte RAM at address 0 and lands there |
| Boot.LoadFonts | src/application.rb:823-825 | `load_fonts` succeeds, puts `CHARS_MAP` at 0..79 and leaves the rest of RAM unchanged |
| Boot.InitialLayout | src/application.rb:780-877 | loading succeeds iff the ROM fits in the 3584 bytes above 0x200; the RAM then holds the font table and the ROM, and the initial state satisfies the invariant |
| Boot.Initial | src/application.rb:869-870 | no contract; `load_fonts` then `load_rom` over a cleared RAM; Boot.InitialLayout states it |
| Boot.InitialState | src/application.rb:781-786 | no contract; the parts as built, PC = 0x200, I = 0, 16 zero registers, an empty stack, over the RAM Boot.Initial leaves; Boot.InitialLayout and Boot.Boot state it |
| Boot.CharacterPointsAtGlyph | src/application.rb:716-722 | once the fonts are loaded, Fx29 with a digit d in Vx points I at the five rows of d's glyph |
| Boot.Boot | src/application.rb:780-877 | the parts are built fresh and unshared, and after loading the machine is `Boot.InitialState`; `ok` says whether loading raised |

## Left out

- The display. `Display`, `DumbDisplay` and `Vram` contents are not part of the machine state, so 00E0 changes no modelled state. `Vram` is modelled only as a container.
- Console I/O in `ProgramRunner#start`: the `puts` lines and `gets`. Only one pass of the loop is modelled. The loop never stops of its own accord: `next gets == "n"` always moves to the next pass, so `break if gets == "q"` cannot be reached. Only an exception ends it.
- `IO.binread` of `roms/pong.rom`: the ROM is a parameter of `Boot.Boot`, a sequence of bytes.
- `rand(0xFF)`: the random byte is a parameter, 0 <= r < 255.
- The mechanics of Ruby `Hash`, `eql?` and `hash` (`InstructionId`, `@instructions_map`). Because `hash` is constant, the map lookup is modelled as a search of the instruction list in its order for a matcher that accepts the opcode. `Decoding.AtMostOneMatch` shows the order does not matter.
- The debug block and the `to_s` printers: they only print.
- `src/window.rb` is not part of this model. It holds Gosu rendering and keyboard input.
- `src/speaker.rb` is not part of this model. It holds audio playback.
- `bin/emulator.rb` is not part of this model. It holds only `require` lines.
- The objects of `Registers`: the bank is an array of values rather than of `Register` objects. `read_register(i).read` is reading element i. The `name` of a register is not modelled.
- `Register#==`: register comparisons in the skips are comparisons of the values.
- `Register.new` with an initial value that does not fit: only the two subclasses and the zero-filled bank are built, and their initial values fit.
- `Memory#read`: `length` is a natural number. The source calls it only with 1 and 2.
- The runner cannot fetch the word at 0xFFE: `Memory#read` demands that address + 2 is in range. The model keeps this.
- Boot.WriteBytes: it is stated for 8-bit memories only. The script copies only into the `Ram`; a copy into the 1-bit `Vram` is not modelled.
