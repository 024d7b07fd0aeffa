/** CrecvBuffer: packets are queued by the event loop and merged into one growing buffer by a worker. */
module RecvBuffers {
  import opened Bytes
  import opened Buffers
  import opened Doublings

  /** A received packet in its own allocated block. */
  datatype Packet = Packet(block: nat, bytes: seq<byte>)

  function Payload(ps: seq<Packet>): seq<byte> {
    if ps == [] then [] else Payload(ps[..|ps| - 1]) + ps[|ps| - 1].bytes
  }

  function Blocks(ps: seq<Packet>): seq<nat> {
    if ps == [] then [] else Blocks(ps[..|ps| - 1]) + [ps[|ps| - 1].block]
  }

  lemma PayloadSnoc(ps: seq<Packet>, p: Packet)
    ensures Payload(ps + [p]) == Payload(ps) + p.bytes
    ensures Blocks(ps + [p]) == Blocks(ps) + [p.block]
  {
    assert (ps + [p])[..|ps|] == ps;
  }

  /** A receive buffer as values: what was merged, what is queued, the overflow flag and the blocks freed so far. */
  datatype Recv = Recv(content: seq<byte>, queued: seq<Packet>, overflow: bool, freed: seq<nat>)

  /** A packet of length 0 is not queued; deallocateBuffer frees its block. */
  function Pushed(r: Recv, p: Packet): Recv {
    if p.bytes == [] then r else r.(queued := r.queued + [p])
  }

  function Merged(r: Recv, limit: nat): Recv {
    var fits := |r.content| + |Payload(r.queued)| <= limit;
    Recv(if fits then r.content + Payload(r.queued) else r.content, [],
      r.overflow || (r.queued != [] && !fits), r.freed + Blocks(r.queued))
  }

  datatype Op = Push(packet: Packet) | MergeAll

  function Replay(r: Recv, limit: nat, ops: seq<Op>): Recv {
    if ops == [] then r
    else
      var q := Replay(r, limit, ops[..|ops| - 1]);
      match ops[|ops| - 1]
      case Push(p) => Pushed(q, p)
      case MergeAll => Merged(q, limit)
  }

  /** The packets with bytes that a history pushes. */
  function PushedBy(ops: seq<Op>): seq<Packet> {
    if ops == [] then []
    else
      var last := ops[|ops| - 1];
      PushedBy(ops[..|ops| - 1]) + (if last.Push? && last.packet.bytes != [] then [last.packet] else [])
  }

  /** `q` holds what `r` held with the packets `ps` behind it. */
  predicate Follows(r: Recv, q: Recv, ps: seq<Packet>) {
    && (!q.overflow ==> q.content + Payload(q.queued) == r.content + Payload(r.queued) + Payload(ps))
    && q.freed + Blocks(q.queued) == r.freed + Blocks(r.queued) + Blocks(ps)
  }

  lemma PushFollows(r: Recv, q: Recv, ps: seq<Packet>, p: Packet)
    requires Follows(r, q, ps)
    ensures Follows(r, q.(queued := q.queued + [p]), ps + [p])
  {
    PayloadSnoc(q.queued, p);
    PayloadSnoc(ps, p);
    Assoc(q.content, Payload(q.queued), p.bytes);
    Assoc(r.content + Payload(r.queued), Payload(ps), p.bytes);
    Assoc(q.freed, Blocks(q.queued), [p.block]);
    Assoc(r.freed + Blocks(r.queued), Blocks(ps), [p.block]);
  }

  lemma MergeFollows(r: Recv, q: Recv, ps: seq<Packet>, limit: nat)
    requires Follows(r, q, ps)
    ensures Follows(r, Merged(q, limit), ps)
  {
    var m := Merged(q, limit);
    assert m.content + Payload([]) == m.content;
    assert m.freed + Blocks([]) == m.freed;
    if q.queued == [] {
      assert q.content + Payload([]) == q.content;
    }
  }

  /** Every interleaving of pushes and merges neither loses, repeats nor reorders a byte unless it overflows, and
      frees each queued block exactly once, in order; the content never grows over the limit. */
  lemma {:induction false} MergeIsAppend(r: Recv, limit: nat, ops: seq<Op>)
    ensures Follows(r, Replay(r, limit, ops), PushedBy(ops))
    ensures |r.content| <= limit ==> |Replay(r, limit, ops).content| <= limit
    decreases |ops|
  {
    hide Follows;
    if ops == [] {
      FollowsNothing(r);
    } else {
      var init, last := ops[..|ops| - 1], ops[|ops| - 1];
      MergeIsAppend(r, limit, init);
      var q := Replay(r, limit, init);
      assert PushedBy(init) + [] == PushedBy(init);
      match last
      case Push(p) => PushFollows(r, q, PushedBy(init), p);
      case MergeAll => MergeFollows(r, q, PushedBy(init), limit);
    }
  }

  lemma FollowsNothing(r: Recv)
    ensures Follows(r, r, [])
  {
    assert r.content + Payload(r.queued) + [] == r.content + Payload(r.queued);
    assert r.freed + Blocks(r.queued) + [] == r.freed + Blocks(r.queued);
  }

  class RecvBuffer {
    var initialSize: nat
    var maxSize: nat
    const buffer: Buffer
    var now: nat
    var overflow: bool
    var raws: seq<Packet>

    /** The blocks handed back so far, in order. */
    ghost var freed: seq<nat>

    ghost predicate Valid()
      reads this, buffer
    {
      && buffer.Valid()
      && now <= buffer.length
      && (buffer.data.Length > 0 ==> now <= maxSize && 0 < buffer.length <= maxSize)
    }

    /** The length at which the doubling loop of the next merge starts. */
    ghost function StartLength(): nat
      reads this, buffer
    {
      if buffer.data.Length == 0 then initialSize else buffer.length
    }

    /** The next merge comes back, with room for what it copies: its doubling loop is not reached, or ends with room. */
    ghost predicate Ready()
      reads this, buffer
    {
      || raws == [] || now + |Payload(raws)| > Limit()
      || EndsWithRoom(StartLength(), now, |Payload(raws)|)
    }

    /** The received bytes. */
    ghost function Received(): seq<byte>
      requires Valid()
      reads this, buffer, buffer.data
    {
      buffer.data[..now]
    }

    ghost function State(): Recv
      requires Valid()
      reads this, buffer, buffer.data
    {
      Recv(Received(), raws, overflow, freed)
    }

    constructor (initial: nat, max: nat)
      ensures Valid() && fresh(buffer) && fresh(buffer.data)
      ensures State() == Recv([], [], false, [])
      ensures initialSize == initial && maxSize == max
    {
      initialSize, maxSize := initial, max;
      buffer := new Buffer();
      now, overflow, raws, freed := 0, false, [], [];
    }

    method PushBuffer(p: Packet)
      requires Valid()
      modifies this`raws
      ensures Valid() && State() == Pushed(old(State()), p)
    {
      if |p.bytes| > 0 {
        raws := raws + [p];
      }
    }

    /** The limit in force once the buffer exists. */
    ghost function Limit(): nat
      reads this, buffer
    {
      if buffer.data.Length == 0 && maxSize < initialSize then initialSize else maxSize
    }

    /** Moves everything queued behind the received bytes if the limit allows it, and otherwise records the overflow
        and drops it; either way every queued block is freed, once and in order. */
    method Merge()
      requires Valid() && Ready()
      modifies this, buffer, buffer.data
      ensures Valid() && Ready() && raws == []
      ensures buffer.data == old(buffer.data) || fresh(buffer.data)
      ensures initialSize == old(initialSize) && maxSize == Limit() == old(Limit())
      ensures State() == Merged(old(State()), old(Limit()))
    {
      hide Payload, EndsWithRoom, Merged;
      if buffer.data.Length == 0 {
        if maxSize < initialSize {
          maxSize := initialSize;
        }
        buffer.Resize(initialSize, 0);
      }
      if |raws| > 0 {
        Take();
      } else {
        MergedNothing(State(), maxSize);
      }
    }

    /** The part of `merge` under the lock of the queue. */
    method Take()
      requires Valid() && raws != []
      requires now + |Payload(raws)| <= maxSize ==> EndsWithRoom(buffer.length, now, |Payload(raws)|)
      modifies this`now, this`overflow, this`raws, this`freed, buffer, buffer.data
      ensures Valid() && raws == [] && buffer.data.Length >= old(buffer.data.Length)
      ensures buffer.data == old(buffer.data) || fresh(buffer.data)
      ensures State() == Merged(old(State()), maxSize)
    {
      hide Payload, EndsWithRoom;
      var total := TotalLength(raws);
      if total + now > maxSize {
        overflow := true;
      } else {
        Grow(total);
        CopyAll();
      }
      freed := freed + Blocks(raws);
      raws := [];
    }

    static method TotalLength(ps: seq<Packet>) returns (total: nat)
      ensures total == |Payload(ps)|
    {
      total := 0;
      for i := 0 to |ps|
        invariant total == |Payload(ps[..i])|
      {
        PayloadSnoc(ps[..i], ps[i]);
        assert ps[..i + 1] == ps[..i] + [ps[i]];
        total := total + |ps[i].bytes|;
      }
      assert ps[..|ps|] == ps;
    }

    /** The first doubled length with room for `total` more bytes, or the limit if that is over it. */
    ghost predicate GrownTo(n: nat, now: nat, total: nat, limit: nat, length: nat) {
      exists k: nat :: Rounds(n, now, total, k) && length == if Doubled(n, k) > limit then limit else Doubled(n, k)
    }

    /** Doubles the length until `total` more bytes fit, in `size_t` arithmetic, and stops at the limit. */
    method Grow(total: nat)
      requires Valid() && now + total <= maxSize && EndsWithRoom(buffer.length, now, total)
      modifies buffer
      ensures Valid() && now + total <= buffer.length && buffer.data.Length >= old(buffer.data.Length)
      ensures buffer.data == old(buffer.data) || fresh(buffer.data)
      ensures Received() == old(Received())
      ensures GrownTo(old(buffer.length), now, total, maxSize, buffer.length)
    {
      ghost var n := buffer.length;
      ghost var k: nat :| Rounds(n, now, total, k) && Doubled(n, k) >= now + total;
      assert total == 0 ==> Stops(n, now, total, 0);
      ghost var i := 0;
      var target := buffer.length;
      while (target - now) % SIZE_MOD < total
        invariant i <= k && target == Doubled(n, i)
        decreases k - i
      {
        assert i != k;
        target := target * 2 % SIZE_MOD;
        i := i + 1;
      }
      assert Stops(n, now, total, i);
      if target > maxSize {
        target := maxSize;
      }
      ghost var kept := buffer.data[..now];
      ghost var block := buffer.data;
      buffer.Resize(target, now);
      assert buffer.data[..now] == kept;
    }

    method CopyAll()
      requires Valid() && now + |Payload(raws)| <= buffer.length
      modifies this`now, buffer.data
      ensures Valid() && Received() == old(Received()) + Payload(raws)
    {
      hide Payload;
      ghost var base := Received();
      PayloadEnds(raws);
      assert base + [] == base;
      for i := 0 to |raws|
        invariant Valid()
        invariant Received() == base + Payload(raws[..i])
      {
        ghost var done := raws[..i];
        PayloadSnoc(done, raws[i]);
        assert raws[..i + 1] == done + [raws[i]];
        PayloadMonotone(raws, i + 1);
        Assoc(base, Payload(done), raws[i].bytes);
        CopyOne(raws[i].bytes);
      }
    }

    /** What `extract` copies of the receive buffer: the settings, the first `n` bytes and the overflow flag. */
    method CopyFront(from: RecvBuffer, n: nat)
      requires Valid() && from.Valid() && from != this && from.buffer != buffer && from.buffer.data != buffer.data
      requires 0 < n <= from.now
      modifies this`initialSize, this`maxSize, this`now, this`overflow, buffer, buffer.data
      ensures Valid() && Received() == from.Received()[..n] && overflow == from.overflow
      ensures initialSize == from.initialSize && maxSize == from.maxSize
      ensures buffer.data == old(buffer.data) || fresh(buffer.data)
    {
      initialSize, maxSize := from.initialSize, from.maxSize;
      ghost var front := from.Received()[..n];
      assert front == from.buffer.data[..n];
      buffer.Set(from.buffer.data[..n]);
      now, overflow := n, from.overflow;
    }

    /** The memmove of both `clear` methods: the bytes from position `k` on move to the front. */
    method DropFront(k: nat)
      requires Valid() && k <= now
      modifies this`now, buffer.data
      ensures Valid() && Received() == old(Received())[k..]
    {
      ghost var tail := Received()[k..];
      var extra := now - k;
      forall i | 0 <= i < extra {
        buffer.data[i] := buffer.data[k + i];
      }
      now := extra;
      assert Received() == tail;
    }

    method CopyOne(bytes: seq<byte>)
      requires Valid() && now + |bytes| <= buffer.length
      modifies this`now, buffer.data
      ensures Valid() && now == old(now) + |bytes| && Received() == old(Received()) + bytes
    {
      forall k | 0 <= k < |bytes| {
        buffer.data[now + k] := bytes[k];
      }
      now := now + |bytes|;
    }
  }

  /** With an initial size above 0 and sizes up to 2^63 every merge comes back; with an initial size of 0 none does that
      has something to copy. */
  lemma ReadyIf(r: RecvBuffer)
    requires r.Valid() && r.initialSize <= HALF && r.maxSize <= HALF
    requires r.raws != [] && Payload(r.raws) != [] && r.now + |Payload(r.raws)| <= r.Limit()
    ensures r.Ready() <==> r.StartLength() > 0
    ensures r.buffer.data.Length > 0 || r.initialSize > 0 ==> r.StartLength() > 0
  {
    EndsIffPositive(r.StartLength(), r.now, |Payload(r.raws)|);
  }

  lemma MergedNothing(r: Recv, limit: nat)
    requires r.queued == []
    ensures Merged(r, limit) == r
  {
    assert r.content + Payload([]) == r.content && r.freed + Blocks([]) == r.freed;
  }

  lemma PayloadEnds(ps: seq<Packet>)
    ensures Payload(ps[..0]) == [] && ps[..|ps|] == ps
  {
  }

  lemma {:induction false} PayloadMonotone(ps: seq<Packet>, i: nat)
    requires i <= |ps|
    ensures |Payload(ps[..i])| <= |Payload(ps)|
    decreases |ps|
  {
    if i < |ps| {
      assert ps[..|ps| - 1][..i] == ps[..i];
      PayloadMonotone(ps[..|ps| - 1], i);
    } else {
      assert ps[..i] == ps;
    }
  }
}
