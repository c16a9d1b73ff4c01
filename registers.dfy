/** `Register`, the bank `Registers`, and the two special registers `ProgramCounter`
    (16 bits, starting at 0x200) and `MemoryAddress` (I, 12 bits). */
module RegisterFile {
  import opened Bits
  import opened Wrappers

  /** The check of `Register#update`: it raises when `data >> size_in_bits > 0`.
      Ruby's `>>` rounds toward negative infinity, so every negative value passes. */
  function Accepts(sizeInBits: nat, data: int): (r: bool)
    ensures r <==> data < Pow2(sizeInBits)
  {
    ShrPositive(data, sizeInBits);
    !(Shr(data, sizeInBits) > 0)
  }

  /** `Registers#read_register`: the value of the indexed register, or Overflow for an
      index outside the bank. */
  function ReadBank(values: seq<int>, index: int): (r: Result<int>)
    ensures r.Ok? <==> 0 <= index < |values|
    ensures r.Ok? ==> r.value == values[index]
  {
    if 0 <= index < |values| then Ok(values[index]) else Overflow
  }

  /** `Registers#update_register`: the bank with one register replaced, or Overflow for an
      index outside the bank or a value too wide for the register. */
  function UpdatedBank(values: seq<int>, sizeInBits: nat, index: int, data: int): (r: Result<seq<int>>)
    ensures r.Ok? <==> 0 <= index < |values| && data < Pow2(sizeInBits)
    ensures r.Ok? ==> |r.value| == |values| && r.value[index] == data
    ensures r.Ok? ==> forall k :: 0 <= k < |values| && k != index ==> r.value[k] == values[k]
  {
    if !(0 <= index < |values|) then Overflow
    else if !Accepts(sizeInBits, data) then Overflow
    else Ok(values[index := data])
  }

  class Register {
    var data: int
    const sizeInBits: nat

    /** `ProgramCounter.new`: 16 bits, initially 0x200. */
    constructor ProgramCounter()
      ensures data == 0x200 && sizeInBits == 16
    {
      data := 0x200;
      sizeInBits := 16;
    }

    /** `MemoryAddress.new`: 12 bits, initially 0. */
    constructor MemoryAddress()
      ensures data == 0 && sizeInBits == 12
    {
      data := 0;
      sizeInBits := 12;
    }

    /** `Register#update`: replaces the value, or raises and keeps it. */
    method Update(d: int) returns (ok: bool)
      modifies this
      ensures ok == Accepts(sizeInBits, d)
      ensures data == if ok then d else old(data)
    {
      ok := Accepts(sizeInBits, d);
      if ok {
        data := d;
      }
    }

    /** `Register#add`: adds without any width check. */
    method Add(d: int)
      modifies this
      ensures data == old(data) + d
    {
      data := data + d;
    }
  }

  /** `Registers`: a bank of equally wide registers. The `Register` objects of the
      source are represented by their values. */
  class Registers {
    var data: array<int>
    const sizeInBits: nat

    /** `Registers.new(count:, register_size_in_bits:)`: every register 0. */
    constructor (count: nat, registerSizeInBits: nat)
      ensures fresh(data) && data.Length == count && sizeInBits == registerSizeInBits
      ensures forall k :: 0 <= k < count ==> data[k] == 0
    {
      data := new int[count](_ => 0);
      sizeInBits := registerSizeInBits;
    }

    method ReadRegister(index: int) returns (r: Result<int>)
      ensures r == ReadBank(data[..], index)
    {
      if 0 <= index < data.Length {
        r := Ok(data[index]);
      } else {
        r := Overflow;
      }
    }

    method UpdateRegister(index: int, d: int) returns (ok: bool)
      modifies data
      ensures UpdatedBank(old(data[..]), sizeInBits, index, d) == if ok then Ok(data[..]) else Overflow
      ensures !ok ==> data[..] == old(data[..])
    {
      if !(0 <= index < data.Length) || !Accepts(sizeInBits, d) {
        return false;
      }
      data[index] := d;
      ok := true;
    }
  }
}
