/** What happens to the buffers of one TCP write: who owns their memory, when it is freed and when the drop callback is
    told about them. */
module SendBuffers {

  /** A block of memory by its address; null for none. */
  type Block = nat

  const NULL: Block := 0

  /** uv_buf_t. */
  datatype Buf = Buf(base: Block, len: nat)

  class Cbuffer {
    var data: Block
    var length: nat
    var maxLength: nat

    constructor (data: Block, length: nat)
      ensures this.data == data && this.length == this.maxLength == length
    {
      this.data, this.length, maxLength := data, length, length;
    }

    /** Gives the block away with its length; the buffer is then empty. */
    method Transfer() returns (buf: Buf)
      modifies this
      ensures buf == Buf(old(data), old(length))
      ensures data == NULL && length == 0 && maxLength == 0
    {
      buf := Buf(data, length);
      data := NULL;
      length, maxLength := 0, 0;
    }
  }

  /** How libuv and the allocator answer: no memory for the request, the timer cannot be set, uv_write refuses, or the
      request is accepted and completes with a status. */
  datatype Answer = NoMemory | NoTimer | Refused | Completes(status: int)

  function BufsOf(bufs: seq<Cbuffer>): seq<Buf>
    reads bufs
  {
    seq(|bufs|, i requires 0 <= i < |bufs| reads bufs => Buf(bufs[i].data, bufs[i].length))
  }

  function Bases(bs: seq<Buf>): seq<Block> {
    seq(|bs|, i requires 0 <= i < |bs| => bs[i].base)
  }

  function NonNull(bs: seq<Block>): seq<Block> {
    if bs == [] then []
    else NonNull(bs[..|bs| - 1]) + (if bs[|bs| - 1] == NULL then [] else [bs[|bs| - 1]])
  }

  predicate Distinct(bufs: seq<Cbuffer>) {
    forall i, j :: 0 <= i < j < |bufs| ==> bufs[i] != bufs[j]
  }

  /** The request that libuv holds between uv_write and its callback. */
  class WriteInfo {
    var buf: seq<Buf>

    constructor ()
      ensures buf == []
    {
      buf := [];
    }
  }

  /** The logs of one connection: blocks freed and buffers reported as dropped, in order, and how many requests were
      allocated and freed. */
  class Connection {
    var freed: seq<Block>
    var dropped: seq<Buf>
    var requests: nat
    var requestsFreed: nat

    constructor ()
      ensures freed == [] && dropped == [] && requests == 0 && requestsFreed == 0
    {
      freed, dropped, requests, requestsFreed := [], [], 0, 0;
    }

    /** __free, which ignores null. */
    method Free(b: Block)
      modifies this`freed
      ensures freed == old(freed) + NonNull([b])
    {
      assert [b][..0] == [];
      if b != NULL {
        freed := freed + [b];
      }
      assert freed == old(freed) + NonNull([b]);
    }

    /** The loop that reports every buffer that is still with the caller. */
    method DropAll(bufs: seq<Cbuffer>)
      modifies this`dropped
      ensures dropped == old(dropped) + BufsOf(bufs)
    {
      for i := 0 to |bufs|
        invariant dropped == old(dropped) + BufsOf(bufs)[..i]
      {
        dropped := dropped + [Buf(bufs[i].data, bufs[i].length)];
      }
    }

    method TransferAll(bufs: seq<Cbuffer>, info: WriteInfo)
      requires Distinct(bufs) && info.buf == []
      modifies bufs, info
      ensures info.buf == old(BufsOf(bufs))
      ensures forall i :: 0 <= i < |bufs| ==> bufs[i].data == NULL
    {
      for i := 0 to |bufs|
        invariant info.buf == old(BufsOf(bufs))[..i]
        invariant forall j :: 0 <= j < i ==> bufs[j].data == NULL
        invariant forall j :: i <= j < |bufs| ==>
          bufs[j].data == old(bufs[j].data) && bufs[j].length == old(bufs[j].length)
      {
        var buf := bufs[i].Transfer();
        info.buf := info.buf + [buf];
      }
    }

    /** The completion callback, and the clean-up of a refused write: reports the buffers if they were not written, then
        frees them and the request. */
    method Release(info: WriteInfo, written: bool)
      requires NULL !in Bases(info.buf)
      modifies this`freed, this`dropped, this`requestsFreed
      ensures freed == old(freed) + Bases(info.buf)
      ensures dropped == old(dropped) + (if written then [] else info.buf)
      ensures requestsFreed == old(requestsFreed) + 1
    {
      if !written {
        for i := 0 to |info.buf|
          invariant dropped == old(dropped) + info.buf[..i]
          invariant freed == old(freed) && requestsFreed == old(requestsFreed)
        {
          dropped := dropped + [info.buf[i]];
        }
      }
      for i := 0 to |info.buf|
        invariant freed == old(freed) + Bases(info.buf)[..i] && requestsFreed == old(requestsFreed)
        invariant dropped == old(dropped) + (if written then [] else info.buf)
      {
        assert Bases(info.buf)[i] in Bases(info.buf);
        freed := freed + [info.buf[i].base];
      }
      requestsFreed := requestsFreed + 1;
    }

    /** tcpWriteWithTimeout. A null result stands for false. */
    method TcpWrite(bufs: seq<Cbuffer>, answer: Answer) returns (info: WriteInfo?)
      requires Distinct(bufs) && NULL !in Bases(BufsOf(bufs))
      modifies this, bufs
      ensures info != null <==> answer.Completes?
      ensures info != null ==> fresh(info) && info.buf == old(BufsOf(bufs)) && dropped == old(dropped)
      ensures info == null ==> dropped == old(dropped) + old(BufsOf(bufs))
      ensures freed == if answer.Refused? then old(freed) + Bases(old(BufsOf(bufs))) else old(freed)
      ensures requests == old(requests) + (if answer.NoMemory? then 0 else 1)
      ensures requestsFreed == old(requestsFreed) + (if answer.NoTimer? || answer.Refused? then 1 else 0)
      ensures forall i :: 0 <= i < |bufs| ==>
        bufs[i].data == if answer.NoMemory? || answer.NoTimer? then old(bufs[i].data) else NULL
    {
      if answer.NoMemory? {
        DropAll(bufs);
        return null;
      }
      info := new WriteInfo();
      requests := requests + 1;
      if answer.NoTimer? {
        DropAll(bufs);
        requestsFreed := requestsFreed + 1;
        return null;
      }
      TransferAll(bufs, info);
      if answer.Refused? {
        Release(info, false);
        return null;
      }
    }

    /** The destructors of the caller's buffers. */
    method DestroyAll(bufs: seq<Cbuffer>)
      modifies this`freed
      ensures freed == old(freed) + NonNull(Bases(BufsOf(bufs)))
    {
      ghost var blocks := Bases(BufsOf(bufs));
      for i := 0 to |bufs|
        invariant freed == old(freed) + NonNull(blocks[..i])
      {
        NonNullSnoc(blocks[..i], bufs[i].data);
        assert blocks[..i + 1] == blocks[..i] + [bufs[i].data];
        Free(bufs[i].data);
      }
      assert blocks[..|bufs|] == blocks;
    }

    /** Send buffers are conserved: whatever the answers, from the call over the completion to the end of the caller's
        buffers every block is freed exactly once, and reported as dropped exactly once if it was not written and never
        if it was; and the request is freed exactly once if there was memory for it. */
    method SendLife(bufs: seq<Cbuffer>, answer: Answer)
      requires Distinct(bufs) && NULL !in Bases(BufsOf(bufs))
      modifies this, bufs
      ensures freed == old(freed) + Bases(old(BufsOf(bufs)))
      ensures dropped == old(dropped) + (if answer == Completes(0) then [] else old(BufsOf(bufs)))
      ensures requestsFreed - old(requestsFreed) == requests - old(requests) == if answer.NoMemory? then 0 else 1
    {
      hide NonNull;
      ghost var blocks := Bases(BufsOf(bufs));
      var info := TcpWrite(bufs, answer);
      DestroyRest(bufs, answer.NoMemory? || answer.NoTimer?, blocks);
      if info != null {
        Release(info, answer.status == 0);
      }
    }

    /** The destructors again: of buffers that still have their blocks, or of empty ones. */
    method DestroyRest(bufs: seq<Cbuffer>, ghost kept: bool, ghost blocks: seq<Block>)
      requires NULL !in blocks && |blocks| == |bufs|
      requires forall i :: 0 <= i < |bufs| ==> bufs[i].data == if kept then blocks[i] else NULL
      modifies this`freed
      ensures freed == old(freed) + (if kept then blocks else [])
    {
      hide NonNull;
      ghost var now := Bases(BufsOf(bufs));
      if kept {
        assert now == blocks;
        KeepAll(now);
      } else {
        DropNulls(now);
      }
      DestroyAll(bufs);
    }
  }

  lemma NonNullSnoc(bs: seq<Block>, b: Block)
    ensures NonNull(bs + [b]) == NonNull(bs) + NonNull([b])
  {
    assert (bs + [b])[..|bs|] == bs;
    assert [b][..0] == [];
  }

  lemma {:induction false} KeepAll(bs: seq<Block>)
    requires NULL !in bs
    ensures NonNull(bs) == bs
  {
    if bs != [] {
      assert bs[|bs| - 1] in bs;
      assert forall b :: b in bs[..|bs| - 1] ==> b in bs;
      KeepAll(bs[..|bs| - 1]);
    }
  }

  lemma {:induction false} DropNulls(bs: seq<Block>)
    requires forall i :: 0 <= i < |bs| ==> bs[i] == NULL
    ensures NonNull(bs) == []
  {
    if bs != [] {
      DropNulls(bs[..|bs| - 1]);
    }
  }
}
