/** `Stack`: a bounded sequence of return addresses that only grows (the source has no pop). */
module CallStack {
  import opened Bits
  import opened Wrappers

  /** `Stack#push`: raises when `data >> item_size_in_bits > 0` or when `levels` entries
      are already stored; otherwise appends data on top. As in `Register#update`, a
      negative value passes the width check. */
  function Pushed(addresses: seq<int>, levels: nat, itemSizeInBits: nat, data: int): (r: Result<seq<int>>)
    ensures r.Ok? <==> data < Pow2(itemSizeInBits) && |addresses| < levels
    ensures r.Ok? ==> |r.value| == |addresses| + 1 && r.value[|addresses|] == data
    ensures r.Ok? ==> r.value[..|addresses|] == addresses
  {
    ShrPositive(data, itemSizeInBits);
    if Shr(data, itemSizeInBits) > 0 || |addresses| >= levels then Overflow
    else Ok(addresses + [data])
  }

  class Stack {
    var addresses: seq<int>
    const levels: nat
    const itemSizeInBits: nat

    /** `Stack.new(levels:, item_size_in_bits:)`: empty. */
    constructor (levels: nat, itemSizeInBits: nat)
      ensures addresses == [] && this.levels == levels && this.itemSizeInBits == itemSizeInBits
    {
      addresses := [];
      this.levels := levels;
      this.itemSizeInBits := itemSizeInBits;
    }

    method Push(data: int) returns (ok: bool)
      modifies this
      ensures Pushed(old(addresses), levels, itemSizeInBits, data)
              == if ok then Ok(addresses) else Overflow
      ensures !ok ==> addresses == old(addresses)
    {
      ShrPositive(data, itemSizeInBits);
      if Shr(data, itemSizeInBits) > 0 || |addresses| >= levels {
        return false;
      }
      addresses := addresses + [data];
      ok := true;
    }
  }
}
