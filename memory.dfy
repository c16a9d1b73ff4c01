/** `Memory` and its two sizes, `Ram` (4096 cells of 8 bits) and `Vram` (2048 cells of
    1 bit): a buffer whose writes check both the position and the width of the value. */
module Memories {
  import opened Bits
  import opened Wrappers

  /** `validate_position!`: 0 <= position < size. */
  predicate InBounds(position: int, size: nat)
  {
    0 <= position < size
  }

  /** Every cell holds a value of the declared width, as `write` enforces. */
  predicate CellsFit(buffer: seq<int>, itemSizeInBits: nat)
  {
    forall k :: 0 <= k < |buffer| ==> 0 <= buffer[k] < Pow2(itemSizeInBits)
  }

  /** `Memory#write`: the buffer after writing data at position, or Overflow. */
  function Written(buffer: seq<int>, itemSizeInBits: nat, position: int, data: int): (r: Result<seq<int>>)
    ensures r.Ok? <==> 0 <= position < |buffer| && 0 <= data < Pow2(itemSizeInBits)
    ensures r.Ok? ==> |r.value| == |buffer| && r.value[position] == data
    ensures r.Ok? ==> forall k :: 0 <= k < |buffer| && k != position ==> r.value[k] == buffer[k]
    ensures r.Ok? && CellsFit(buffer, itemSizeInBits) ==> CellsFit(r.value, itemSizeInBits)
  {
    ShrZero(data, itemSizeInBits);
    if !InBounds(position, |buffer|) then Overflow
    else if Shr(data, itemSizeInBits) != 0 then Overflow
    else Ok(buffer[position := data])
  }

  /** The block of `Memory#read`: `inject(0) { |acc, byte| (acc << 8) | byte }`. */
  function Inject(acc: int, bytes: seq<int>): int
    decreases |bytes|
  {
    if bytes == [] then acc else Inject(Or(Shl(acc, 8), bytes[0]), bytes[1..])
  }

  /** The big-endian number whose base-256 digits are the given bytes. */
  function Pack(bytes: seq<int>): int
    decreases |bytes|
  {
    if bytes == [] then 0 else 256 * Pack(bytes[..|bytes| - 1]) + bytes[|bytes| - 1]
  }

  /** Folding one more byte into the accumulator. */
  lemma {:induction false} InjectSnoc(acc: int, bytes: seq<int>, b: int)
    ensures Inject(acc, bytes + [b]) == Or(Shl(Inject(acc, bytes), 8), b)
    decreases |bytes|
  {
    if bytes != [] {
      assert (bytes + [b])[1..] == bytes[1..] + [b];
      InjectSnoc(Or(Shl(acc, 8), bytes[0]), bytes[1..], b);
    }
  }

  /** On cells of at most 8 bits the fold is plain big-endian packing. */
  lemma {:induction false} InjectPacks(bytes: seq<int>)
    requires forall k :: 0 <= k < |bytes| ==> 0 <= bytes[k] < 256
    ensures Inject(0, bytes) == Pack(bytes)
    decreases |bytes|
  {
    if bytes != [] {
      var init, last := bytes[..|bytes| - 1], bytes[|bytes| - 1];
      assert bytes == init + [last];
      InjectPacks(init);
      InjectSnoc(0, init, last);
      Pow2Widths();
      OrBelowShift(Pack(init), last, 8);
    }
  }

  /** Dropping the last byte of a packed range leaves the packing of the shorter range. */
  lemma ReadPacks(buffer: seq<int>, address: int, length: nat)
    requires 0 <= address && address + length < |buffer|
    ensures CellsFit(buffer, 8) ==>
      Shr(Inject(0, buffer[address..address + length + 1]), 8) == Pack(buffer[address..address + length])
  {
    if CellsFit(buffer, 8) {
      var cells, prefix := buffer[address..address + length + 1], buffer[address..address + length];
      assert cells == prefix + [buffer[address + length]];
      assert cells[..|cells| - 1] == prefix;
      InjectPacks(cells);
    }
  }

  /** Packing one and two bytes. */
  lemma PackShort(bytes: seq<int>)
    ensures |bytes| == 1 ==> Pack(bytes) == bytes[0]
    ensures |bytes| == 2 ==> Pack(bytes) == 256 * bytes[0] + bytes[1]
  {
    if |bytes| == 2 {
      assert bytes[..1][..0] == [];
    } else if |bytes| == 1 {
      assert bytes[..0] == [];
    }
  }

  /** `Memory#read(register:, length:)` with the register's value as address: both the
      address and address + length must be in bounds; the fold runs over the length + 1
      cells of the inclusive range and the final `>> 8` drops the last of them. */
  function ReadCells(buffer: seq<int>, address: int, length: nat): (r: Result<int>)
    ensures r.Ok? <==> 0 <= address && address + length < |buffer|
    ensures r.Ok? && CellsFit(buffer, 8) ==> r.value == Pack(buffer[address..address + length])
    ensures r.Ok? && CellsFit(buffer, 8) && length == 1 ==> r.value == buffer[address]
    ensures r.Ok? && CellsFit(buffer, 8) && length == 2 ==>
      r.value == 256 * buffer[address] + buffer[address + 1] && 0 <= r.value < 0x10000
  {
    if !InBounds(address, |buffer|) || !InBounds(address + length, |buffer|) then Overflow
    else
      ReadPacks(buffer, address, length);
      PackShort(buffer[address..address + length]);
      Ok(Shr(Inject(0, buffer[address..address + length + 1]), 8))
  }

  /** All widths admitted by the two memories of the machine. */
  predicate ByteCells(itemSizeInBits: nat)
  {
    itemSizeInBits <= 8
  }

  class Memory {
    var buffer: array<int>
    const itemSizeInBits: nat

    ghost predicate Valid()
      reads this, buffer
    {
      ByteCells(itemSizeInBits) && CellsFit(buffer[..], itemSizeInBits)
    }

    /** `Ram.new`: 4096 cells of 8 bits, all 0. */
    constructor Ram()
      ensures Valid() && fresh(buffer)
      ensures buffer.Length == 4096 && itemSizeInBits == 8
      ensures forall k :: 0 <= k < buffer.Length ==> buffer[k] == 0
    {
      buffer := new int[4096](_ => 0);
      itemSizeInBits := 8;
    }

    /** `Vram.new`: 2048 cells of 1 bit, all 0. */
    constructor Vram()
      ensures Valid() && fresh(buffer)
      ensures buffer.Length == 2048 && itemSizeInBits == 1
      ensures forall k :: 0 <= k < buffer.Length ==> buffer[k] == 0
    {
      buffer := new int[2048](_ => 0);
      itemSizeInBits := 1;
    }

    /** `Memory#write`: either only cell `position` changes, or OverflowError and nothing changes. */
    method Write(position: int, data: int) returns (ok: bool)
      requires Valid()
      modifies buffer
      ensures Valid()
      ensures Written(old(buffer[..]), itemSizeInBits, position, data)
              == if ok then Ok(buffer[..]) else Overflow
      ensures !ok ==> buffer[..] == old(buffer[..])
    {
      ShrZero(data, itemSizeInBits);
      if !InBounds(position, buffer.Length) || Shr(data, itemSizeInBits) != 0 {
        return false;
      }
      buffer[position] := data;
      ok := true;
    }

    /** `Memory#read`: reads without changing anything. */
    method Read(address: int, length: nat) returns (r: Result<int>)
      requires Valid()
      ensures r == ReadCells(buffer[..], address, length)
      ensures r.Ok? <==> 0 <= address && address + length < buffer.Length
      ensures r.Ok? ==> r.value == Pack(buffer[address..address + length])
    {
      Pow2Monotone(itemSizeInBits, 8);
      Pow2Widths();
      r := ReadCells(buffer[..], address, length);
    }
  }
}
