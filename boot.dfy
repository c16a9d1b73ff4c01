/** The start-up of the emulator script: the font table `CHARS_MAP`, `load_fonts`, the
    byte-copy loop of `load_rom` and the construction of the parts the runner is given. */
module Boot {
  import opened Wrappers
  import opened Bits
  import D = Decoding
  import S = Semantics
  import Memories
  import CallStack
  import RegisterFile
  import Runner

  type Byte = b: int | 0 <= b < 256

  /** `CHARS_MAP`: the sixteen hexadecimal digit glyphs, five rows of four pixels each
      (the high nibble of a row byte), glyph d at rows 5d .. 5d + 4. */
  const CharsMap: seq<Byte> := [
    0xF0, 0x90, 0x90, 0x90, 0xF0,
    0x20, 0x60, 0x20, 0x20, 0x70,
    0xF0, 0x10, 0xF0, 0x80, 0xF0,
    0xF0, 0x10, 0xF0, 0x10, 0xF0,
    0x90, 0x90, 0xF0, 0x10, 0x10,
    0xF0, 0x80, 0xF0, 0x10, 0xF0,
    0xF0, 0x80, 0xF0, 0x90, 0xF0,
    0xF0, 0x10, 0x20, 0x40, 0x40,
    0xF0, 0x90, 0xF0, 0x90, 0xF0,
    0xF0, 0x90, 0xF0, 0x10, 0xF0,
    0xF0, 0x90, 0xF0, 0x90, 0x90,
    0xE0, 0x90, 0xE0, 0x90, 0xE0,
    0xF0, 0x80, 0x80, 0x80, 0xF0,
    0xE0, 0x90, 0x90, 0x90, 0xE0,
    0xF0, 0x80, 0xF0, 0x80, 0xF0,
    0xF0, 0x80, 0xF0, 0x80, 0x80
  ]

  /** Whether a copy wrote every byte, and the RAM it left. */
  datatype Copy = Copy(ok: bool, ram: seq<int>)

  /** Writing bytes one after the other with `Memory#write` on an 8-bit memory, from
      position on; the first write that raises ends the copy, earlier writes stay. */
  function LoadBytes(ram: seq<int>, position: int, bytes: seq<Byte>): (c: Copy)
    ensures |c.ram| == |ram|
    decreases |bytes|
  {
    if bytes == [] then Copy(true, ram)
    else
      match Memories.Written(ram, 8, position, bytes[0])
      case Overflow => Copy(false, ram)
      case Ok(next) => LoadBytes(next, position + 1, bytes[1..])
  }

  /** The copy succeeds exactly when the bytes fit from start on; either way it has written
      the bytes that fit and changed no other cell. */
  lemma {:induction false} LoadBytesContents(ram: seq<int>, start: int, bytes: seq<Byte>)
    ensures var c := LoadBytes(ram, start, bytes);
      && (c.ok <==> |bytes| == 0 || (0 <= start && start + |bytes| <= |ram|))
      && |c.ram| == |ram|
      && forall k :: 0 <= k < |ram| ==>
           c.ram[k] == if 0 <= start <= k < start + |bytes| then bytes[k - start] else ram[k]
    decreases |bytes|
  {
    if bytes != [] {
      Pow2Widths();
      match Memories.Written(ram, 8, start, bytes[0])
      case Overflow =>
      case Ok(next) =>
        LoadBytesContents(next, start + 1, bytes[1..]);
    }
  }

  /** Copying keeps every cell within 8 bits. */
  lemma {:induction false} LoadBytesFits(ram: seq<int>, start: int, bytes: seq<Byte>)
    requires Memories.CellsFit(ram, 8)
    ensures Memories.CellsFit(LoadBytes(ram, start, bytes).ram, 8)
  {
    LoadBytesContents(ram, start, bytes);
    Pow2Widths();
  }

  /** A copy that fits puts the bytes at start .. start + |bytes| - 1 and keeps the cells
      on either side. */
  lemma LoadedInPlace(ram: seq<int>, start: int, bytes: seq<Byte>)
    requires 0 <= start && start + |bytes| <= |ram|
    ensures var c := LoadBytes(ram, start, bytes);
      && c.ok && |c.ram| == |ram| && c.ram[start..start + |bytes|] == bytes
      && c.ram[..start] == ram[..start] && c.ram[start + |bytes|..] == ram[start + |bytes|..]
      && (start == 0 ==> c.ram[..|bytes|] == bytes && c.ram[|bytes|..] == ram[|bytes|..])
  {
    LoadBytesContents(ram, start, bytes);
    var c := LoadBytes(ram, start, bytes);
    assert c.ram[start..start + |bytes|] == bytes;
    if start == 0 {
      assert c.ram[..|bytes|] == bytes;
      assert c.ram[|bytes|..] == ram[|bytes|..];
    }
    assert c.ram[..start] == ram[..start];
    assert c.ram[start + |bytes|..] == ram[start + |bytes|..];
  }

  /** The font table fits any RAM of 4096 cells. */
  lemma FontsInPlace(ram: seq<int>)
    requires |ram| == S.RamSize
    ensures var c := LoadBytes(ram, 0, CharsMap);
      c.ok && c.ram[..|CharsMap|] == CharsMap && c.ram[|CharsMap|..] == ram[|CharsMap|..]
  {
    LoadedInPlace(ram, 0, CharsMap);
  }

  /** A slice of a prefix is the slice of the whole. */
  lemma SliceOfPrefix(a: seq<int>, b: seq<int>, lo: int, hi: int)
    requires |b| <= |a| && a[..|b|] == b && 0 <= lo <= hi <= |b|
    ensures a[lo..hi] == b[lo..hi]
  {
    forall k | 0 <= k < hi - lo
      ensures a[lo..hi][k] == b[lo..hi][k]
    {
      assert a[lo + k] == a[..|b|][lo + k];
    }
  }

  /** The loop `each_with_index { ram.write(position, byte) }` of `load_fonts`, and the
      `each_byte` loop of `load_rom` writing from `pc.read` on. */
  method WriteBytes(ram: Memories.Memory, start: int, bytes: seq<Byte>) returns (ok: bool)
    requires ram.Valid() && ram.itemSizeInBits == 8
    modifies ram.buffer
    ensures ram.Valid()
    ensures LoadBytes(old(ram.buffer[..]), start, bytes) == Copy(ok, ram.buffer[..])
  {
    var k := 0;
    while k < |bytes|
      invariant 0 <= k <= |bytes|
      invariant ram.Valid()
      invariant LoadBytes(old(ram.buffer[..]), start, bytes) == LoadBytes(ram.buffer[..], start + k, bytes[k..])
      decreases |bytes| - k
    {
      ghost var before := ram.buffer[..];
      ok := ram.Write(start + k, bytes[k]);
      assert bytes[k..][1..] == bytes[k + 1..];
      if !ok {
        return;
      }
      k := k + 1;
    }
    ok := true;
  }

  /** `load_fonts`: on the 4096-byte RAM the font table lands at 0..79 and nothing else changes. */
  method LoadFonts(ram: Memories.Memory) returns (ok: bool)
    requires ram.Valid() && ram.itemSizeInBits == 8 && ram.buffer.Length == S.RamSize
    modifies ram.buffer
    ensures ram.Valid() && ok
    ensures ram.buffer[..|CharsMap|] == CharsMap
    ensures ram.buffer[|CharsMap|..] == old(ram.buffer[|CharsMap|..])
  {
    ghost var before := ram.buffer[..];
    ok := WriteBytes(ram, 0, CharsMap);
    FontsInPlace(before);
  }

  /** The machine as the script leaves it before `runner.start`: the fonts at 0, the ROM
      from PC = 0x200 on, the registers, I and the stack empty. */
  function Initial(rom: seq<Byte>): Copy
  {
    var fonts := LoadBytes(seq(S.RamSize, _ => 0), 0, CharsMap);
    LoadBytes(fonts.ram, 0x200, rom)
  }

  function InitialState(rom: seq<Byte>): S.State
  {
    S.State(Initial(rom).ram, seq(S.RegisterCount, _ => 0), 0x200, 0, [])
  }

  /** Fonts below 0x200 and a ROM from 0x200 on, over a cleared RAM. */
  lemma {:induction false} LayoutOf(fonts: seq<Byte>, rom: seq<Byte>)
    requires |fonts| <= 0x200
    ensures var c := LoadBytes(LoadBytes(seq(S.RamSize, _ => 0), 0, fonts).ram, 0x200, rom);
      && (c.ok <==> |rom| <= S.RamSize - 0x200)
      && c.ram[..|fonts|] == fonts
      && (|rom| <= S.RamSize - 0x200 ==> c.ram[0x200..0x200 + |rom|] == rom)
      && Memories.CellsFit(c.ram, 8)
  {
    var zero := seq(S.RamSize, _ => 0);
    Pow2Widths();
    assert Memories.CellsFit(zero, 8);
    LoadedInPlace(zero, 0, fonts);
    LoadBytesFits(zero, 0, fonts);
    var f := LoadBytes(zero, 0, fonts).ram;
    LoadBytesContents(f, 0x200, rom);
    LoadBytesFits(f, 0x200, rom);
    var c := LoadBytes(f, 0x200, rom);
    assert c.ram[..|fonts|] == f[..|fonts|];
    if |rom| <= S.RamSize - 0x200 {
      LoadedInPlace(f, 0x200, rom);
    }
  }

  /** A ROM loads exactly when it fits in the 3584 bytes above 0x200; the machine then holds
      the fonts and the ROM, and satisfies the invariant every instruction preserves. */
  lemma InitialLayout(rom: seq<Byte>)
    ensures Initial(rom).ok <==> |rom| <= S.RamSize - 0x200
    ensures var ram := InitialState(rom).ram;
      && ram[..|CharsMap|] == CharsMap
      && (|rom| <= S.RamSize - 0x200 ==> ram[0x200..0x200 + |rom|] == rom)
    ensures S.Consistent(InitialState(rom))
  {
    LayoutOf(CharsMap, rom);
  }

  /** Fx29 after the fonts are loaded: for a digit d in Vx, I points at the five rows of
      the glyph of d. */
  lemma CharacterPointsAtGlyph(s: S.State, op: D.Opcode)
    requires S.Consistent(s) && s.ram[..|CharsMap|] == CharsMap
    requires D.Matches(D.SetMemoryAddressRegisterToCharacter, op) && 0 <= s.v[D.X(op)] < 16
    ensures var r := S.SetMemoryAddressRegisterToCharacter(s, op);
      && r.Completed?
      && r.state.ram[r.state.i..r.state.i + 5] == CharsMap[5 * s.v[D.X(op)]..5 * s.v[D.X(op)] + 5]
  {
    var d := s.v[D.X(op)];
    Pow2Widths();
    S.SetPcAndIAgree(s, d * 5);
    SliceOfPrefix(s.ram, CharsMap, 5 * d, 5 * d + 5);
  }

  /** The script up to `runner.start`: the parts built as `ProgramCounter.new`,
      `MemoryAddress.new`, `Stack.new(levels: 16, item_size_in_bits: 16)`,
      `Registers.new(count: 16, register_size_in_bits: 8)` and `Ram.new`, then `load_fonts`
      and `load_rom`; `ok` is false when loading raised. */
  method Boot(rom: seq<Byte>) returns (runner: Runner.ProgramRunner, ok: bool)
    ensures runner.Valid()
    ensures fresh(runner) && fresh(runner.ram) && fresh(runner.ram.buffer)
    ensures fresh(runner.registers) && fresh(runner.registers.data)
    ensures fresh(runner.pc) && fresh(runner.ma) && fresh(runner.stack)
    ensures ok == Initial(rom).ok && runner.Abstract() == InitialState(rom)
  {
    var pc := new RegisterFile.Register.ProgramCounter();
    var ma := new RegisterFile.Register.MemoryAddress();
    var stack := new CallStack.Stack(S.StackLevels, S.StackWidth);
    var registers := new RegisterFile.Registers(S.RegisterCount, S.RegisterWidth);
    var ram := new Memories.Memory.Ram();
    assert ram.buffer[..] == seq(S.RamSize, _ => 0);
    assert registers.data[..] == seq(S.RegisterCount, _ => 0);
    var fontsLoaded := WriteBytes(ram, 0, CharsMap);
    LoadBytesContents(seq(S.RamSize, _ => 0), 0, CharsMap);
    ok := WriteBytes(ram, pc.data, rom);
    runner := new Runner.ProgramRunner(ram, pc, registers, ma, stack);
  }
}
