/** Cbuffer: a block of memory with a used length. */
module Buffers {
  import opened Bytes

  class Buffer {
    /** The block; its size is `m_maxLength`, and a block of size 0 stands for the null pointer. */
    var data: array<byte>
    var length: nat

    ghost predicate Valid()
      reads this
    {
      length <= data.Length
    }

    constructor ()
      ensures Valid() && length == 0 && data.Length == 0 && fresh(data)
    {
      data := new byte[0];
      length := 0;
    }

    /** Makes the contents a copy of `src`, in a new block only when the old one is too small. */
    method Set(src: seq<byte>)
      requires Valid()
      modifies this, data
      ensures Valid() && length == |src| && data[..length] == src
      ensures data == old(data) || fresh(data)
      ensures data.Length == if |src| <= old(data.Length) then old(data.Length) else |src|
    {
      if |src| > data.Length {
        data := new byte[|src|];
      }
      forall i | 0 <= i < |src| {
        data[i] := src[i];
      }
      length := |src|;
    }

    /** Changes the length; of a block that has to be replaced, the first `validLength` bytes in use survive. */
    method Resize(preferLength: nat, validLength: nat)
      requires Valid()
      modifies this
      ensures Valid() && length == preferLength
      ensures preferLength <= old(data.Length) ==> data == old(data)
      ensures preferLength > old(data.Length) ==> fresh(data) && data.Length == preferLength
      ensures var keep := if validLength > old(length) then old(length) else validLength;
        keep <= data.Length && data[..keep] == old(data[..keep])
    {
      if preferLength <= data.Length {
        length := preferLength;
        return;
      }
      var keep := if validLength > length then length else validLength;
      var block := new byte[preferLength];
      forall i | 0 <= i < keep {
        block[i] := data[i];
      }
      data, length := block, preferLength;
    }
  }
}
