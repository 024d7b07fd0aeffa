/** TCP sends of the loop thread itself, which go to the write path at once and pass by the queues: where they land
    among the queued sends, and exactly when one overtakes an earlier queued send to the same socket. */
module PoolDirects {
  import opened Q = PoolQueues

  /** One hand-over to the write path: a queued send, by the position of its request, or a direct one. */
  datatype Sent = Queued(n: nat) | Direct

  /** The pool with all hand-overs to the write path so far, in order. */
  datatype System = System(p: Pool, wire: seq<Sent>)

  datatype Move = OfPool(e: Event) | Send(id: Id, keep: bool)

  predicate CanMove(y: System, m: Move) {
    match m
    case OfPool(e) => Can(y.p, e)
    case Send(_, _) => Shaped(y.p)
  }

  /** The request at the head of the sends finds its connection. */
  predicate Hands(p: Pool, e: Event)
    requires Can(p, e)
  {
    e.Process? && e.kind == SEND && p.pushed[p.batch[SEND][0]].id in p.mapped
  }

  /** A direct send runs in a callback of the loop thread; `keep` is the answer of the write path. */
  function DoMove(y: System, m: Move): System
    requires CanMove(y, m)
  {
    match m
    case OfPool(e) => System(Do(y.p, e), if Hands(y.p, e) then y.wire + [Queued(y.p.batch[SEND][0])] else y.wire)
    case Send(id, keep) =>
      if id in y.p.mapped then
        System(y.p.(mapped := if keep then y.p.mapped else y.p.mapped - {id}), y.wire + [Direct])
      else y
  }

  function Begin(): System {
    System(Initial(), [])
  }

  predicate Moves(y: System, moves: seq<Move>, z: System)
    decreases |moves|
  {
    if moves == [] then z == y else CanMove(y, moves[0]) && Moves(DoMove(y, moves[0]), moves[1..], z)
  }

  /** Each queued send that was handed over is on the wire once, and it is done. */
  ghost predicate WireOk(y: System)
    requires Shaped(y.p)
  {
    && (forall n: nat :: Queued(n) in y.wire <==> n in y.p.handed)
    && (forall i, j :: 0 <= i < j < |y.wire| && y.wire[i].Queued? ==> y.wire[i] != y.wire[j])
    && (forall n :: n in y.p.handed ==> n in y.p.done[SEND])
    && (y.p.exited ==> y.p.mapped == {})
  }

  ghost predicate SystemOk(y: System) {
    Inv(y.p) && WireOk(y)
  }

  /** A send is in one place only. */
  lemma OnePlace(p: Pool, n: nat)
    requires Inv(p) && n in p.batch[SEND]
    ensures n !in p.done[SEND] && n !in p.pending[SEND]
  {
    var all := Positions(p.pushed, SEND);
    PositionsIncrease(p.pushed, SEND);
    var d, b, w := p.done[SEND], p.batch[SEND], p.pending[SEND];
    assert p.dropped[SEND] == [];
    assert all == d + b + w;
    var i :| 0 <= i < |b| && b[i] == n;
    assert all[|d| + i] == n;
    assert forall j :: 0 <= j < |d| ==> all[j] == d[j];
    assert forall j :: 0 <= j < |w| ==> all[|d| + |b| + j] == w[j];
  }

  lemma WireGrows(y: System, n: nat)
    requires Shaped(y.p) && WireOk(y) && n !in y.p.done[SEND]
    ensures forall i, j :: 0 <= i < j < |y.wire| + 1 && (y.wire + [Queued(n)])[i].Queued? ==>
      (y.wire + [Queued(n)])[i] != (y.wire + [Queued(n)])[j]
  {
    assert Queued(n) !in y.wire;
  }

  lemma ProcessWire(y: System, kind: nat, keep: bool)
    requires SystemOk(y) && Can(y.p, Process(kind, keep))
    ensures WireOk(DoMove(y, OfPool(Process(kind, keep))))
  {
    var n := y.p.batch[kind][0];
    if Hands(y.p, Process(kind, keep)) {
      OnePlace(y.p, n);
      WireGrows(y, n);
    }
  }

  lemma MoveOk(y: System, m: Move)
    requires SystemOk(y) && CanMove(y, m)
    ensures SystemOk(DoMove(y, m))
  {
    hide Inv;
    match m
    case OfPool(e) =>
      DoInv(y.p, e);
      OtherWire(y, e);
      InvShaped(Do(y.p, e));
    case Send(id, keep) =>
      MapInv(y.p, DoMove(y, m).p);
  }

  lemma OtherWire(y: System, e: Event)
    requires SystemOk(y) && Can(y.p, e)
    ensures Shaped(Do(y.p, e)) && WireOk(DoMove(y, OfPool(e)))
  {
    if e.Process? {
      ProcessWire(y, e.kind, e.keep);
    }
  }

  lemma {:induction false} MovesOk(y: System, moves: seq<Move>, z: System)
    requires SystemOk(y) && Moves(y, moves, z)
    ensures SystemOk(z)
    decreases |moves|
  {
    hide SystemOk, CanMove, DoMove;
    if moves != [] {
      MoveOk(y, moves[0]);
      MovesOk(DoMove(y, moves[0]), moves[1..], z);
    }
  }

  lemma BeginOk()
    ensures SystemOk(Begin())
  {
    InitialInv();
  }

  /** What has been done is not handed over later, and what is on the wire stays there. */
  ghost predicate Later(y: System, z: System)
    requires Shaped(y.p) && Shaped(z.p)
  {
    && y.wire <= z.wire
    && (forall n :: n in y.p.done[SEND] ==> n in z.p.done[SEND])
    && (forall n :: n in z.p.handed && n in y.p.done[SEND] ==> n in y.p.handed)
  }

  lemma OneLater(y: System, m: Move)
    requires SystemOk(y) && CanMove(y, m)
    ensures Shaped(DoMove(y, m).p) && Later(y, DoMove(y, m))
  {
    if m.OfPool? && m.e.Process? && Hands(y.p, m.e) {
      OnePlace(y.p, y.p.batch[SEND][0]);
    }
  }

  lemma {:induction false} MovesLater(y: System, moves: seq<Move>, z: System)
    requires SystemOk(y) && Moves(y, moves, z)
    ensures Shaped(y.p) && Shaped(z.p) && Later(y, z)
    decreases |moves|
  {
    hide CanMove, DoMove, WireOk;
    if moves != [] {
      var x := DoMove(y, moves[0]);
      MoveOk(y, moves[0]);
      OneLater(y, moves[0]);
      MovesLater(x, moves[1..], z);
    }
  }

  lemma OnlyOnce(z: System, i: nat, n: nat)
    requires Shaped(z.p) && WireOk(z) && i <= |z.wire| && Queued(n) in z.wire[..i]
    ensures Queued(n) !in z.wire[i..]
  {
    var k :| 0 <= k < i && z.wire[..i][k] == Queued(n);
    forall j | 0 <= j < |z.wire| - i
      ensures z.wire[i..][j] != Queued(n)
    {
      assert z.wire[k] != z.wire[i + j];
    }
  }

  /** The order on the wire: in every run, a queued send of the past stands before a direct send exactly if it had been
      handed over by then, and behind it exactly if it was not yet processed by then and is handed over later. */
  lemma DirectOrder(before: seq<Move>, y: System, id: Id, keep: bool, after: seq<Move>, z: System, n: nat)
    requires Moves(Begin(), before, y) && Shaped(y.p) && id in y.p.mapped
    requires Moves(DoMove(y, Send(id, keep)), after, z)
    ensures |y.wire| < |z.wire| && z.wire[|y.wire|] == Direct && Shaped(z.p)
    ensures Queued(n) in z.wire[..|y.wire|] <==> n in y.p.handed
    ensures Queued(n) in z.wire[|y.wire|..] <==> n in z.p.handed && n !in y.p.done[SEND]
  {
    hide Moves, Inv, Can;
    BeginOk();
    MovesOk(Begin(), before, y);
    var x := DoMove(y, Send(id, keep));
    MoveOk(y, Send(id, keep));
    MovesOk(x, after, z);
    MovesLater(x, after, z);
    var i := |y.wire|;
    assert z.wire[..i] == y.wire;
    assert z.wire == z.wire[..i] + z.wire[i..];
    if n in y.p.handed {
      OnlyOnce(z, i, n);
    }
  }

  predicate SendTo(p: Pool, n: nat, id: Id) {
    n < |p.pushed| && p.pushed[n].kind == SEND && p.pushed[n].id == id
  }

  /** The batch under way has a close of the socket. */
  predicate Closes(p: Pool, id: Id)
    requires Shaped(p)
  {
    exists i :: 0 <= i < |p.batch[CLOSE]| && p.batch[CLOSE][i] < |p.pushed| && p.pushed[p.batch[CLOSE][i]].id == id
  }

  /** A send to the socket is still in the batch, or it is pending and the batch does not close the socket before. */
  ghost predicate Waits(p: Pool, id: Id)
    requires Shaped(p)
  {
    || (exists n: nat :: n in p.batch[SEND] && SendTo(p, n, id))
    || (!Closes(p, id) && exists n: nat :: n in p.pending[SEND] && SendTo(p, n, id))
  }

  /** After the direct send and some more moves, a send that was pushed earlier to the same socket stands behind it. */
  ghost predicate Overtakes(y: System, id: Id, keep: bool, after: seq<Move>, z: System, n: nat)
    requires Shaped(y.p)
  {
    && SendTo(y.p, n, id)
    && Moves(DoMove(y, Send(id, keep)), after, z)
    && |y.wire| < |z.wire| && Queued(n) in z.wire[|y.wire|..]
  }

  function Total(p: Pool): nat
    requires Shaped(p)
  {
    |p.batch[0]| + |p.batch[1]| + |p.batch[2]| + |p.batch[3]| + |p.batch[4]|
  }

  /** The queue whose turn it is. */
  lemma NextKind(p: Pool) returns (kind: nat)
    requires Inv(p) && !Empty(p.batch)
    ensures Can(p, Process(kind, true)) && kind < KINDS && Total(Processed(p, kind, true)) < Total(p)
  {
    kind := 0;
    while p.batch[kind] == []
      invariant kind < KINDS && forall j :: 0 <= j < kind ==> p.batch[j] == []
      decreases KINDS - kind
    {
      kind := kind + 1;
    }
    InRange(p, kind);
  }

  /** A send that is in the batch is handed over once the loop gets to it. */
  lemma {:induction false} HandOver(y: System, id: Id, n: nat) returns (after: seq<Move>, z: System)
    requires SystemOk(y) && id in y.p.mapped && n in y.p.batch[SEND] && SendTo(y.p, n, id)
    ensures Moves(y, after, z) && n in z.p.handed
    decreases Total(y.p)
  {
    hide Inv;
    InvShaped(y.p);
    var kind := NextKind(y.p);
    var m := OfPool(Process(kind, true));
    var x := DoMove(y, m);
    MoveOk(y, m);
    if kind == SEND && y.p.batch[SEND][0] == n {
      after, z := [m], x;
      assert Moves(x, [], x);
    } else {
      var rest;
      rest, z := HandOver(x, id, n);
      after := [m] + rest;
    }
  }

  /** The batch runs to its end, and a pending send to a connection that it does not close waits for the next one. */
  lemma {:induction false} Flush(y: System, id: Id, n: nat) returns (after: seq<Move>, z: System)
    requires SystemOk(y) && id in y.p.mapped && n in y.p.pending[SEND] && SendTo(y.p, n, id) && !Closes(y.p, id)
    ensures Moves(y, after, z) && SystemOk(z) && Empty(z.p.batch)
    ensures id in z.p.mapped && n in z.p.pending[SEND] && SendTo(z.p, n, id)
    decreases Total(y.p)
  {
    hide Inv, WireOk;
    InvShaped(y.p);
    if Empty(y.p.batch) {
      after, z := [], y;
    } else {
      var kind := NextKind(y.p);
      var m := OfPool(Process(kind, true));
      MoveOk(y, m);
      StaysOpen(y, id, kind);
      var rest;
      rest, z := Flush(DoMove(y, m), id, n);
      after := [m] + rest;
    }
  }

  lemma StaysOpen(y: System, id: Id, kind: nat)
    requires Inv(y.p) && Can(y.p, Process(kind, true)) && id in y.p.mapped && !Closes(y.p, id)
    ensures var p := Processed(y.p, kind, true);
      Shaped(p) && id in p.mapped && !Closes(p, id) && p.pending == y.p.pending && p.pushed == y.p.pushed
  {
    var p := Processed(y.p, kind, true);
    assert kind == CLOSE ==> y.p.pushed[y.p.batch[CLOSE][0]].id != id;
    forall i | 0 <= i < |p.batch[CLOSE]| && p.batch[CLOSE][i] < |p.pushed|
      ensures p.pushed[p.batch[CLOSE][i]].id != id
    {
      assert p.batch[CLOSE][i] == y.p.batch[CLOSE][if kind == CLOSE then i + 1 else i];
    }
  }

  lemma {:induction false} MovesAppend(y: System, a: seq<Move>, x: System, b: seq<Move>, z: System)
    requires Moves(y, a, x) && Moves(x, b, z)
    ensures Moves(y, a + b, z)
    decreases |a|
  {
    hide CanMove, DoMove;
    if a == [] {
      assert a + b == b;
    } else {
      MovesAppend(DoMove(y, a[0]), a[1..], x, b, z);
      assert (a + b)[1..] == a[1..] + b;
    }
  }

  /** A pending send is handed over in the batch after this one. */
  lemma HandOverPending(y: System, id: Id, n: nat) returns (after: seq<Move>, z: System)
    requires SystemOk(y) && id in y.p.mapped && n in y.p.pending[SEND] && SendTo(y.p, n, id) && !Closes(y.p, id)
    ensures Moves(y, after, z) && n in z.p.handed
  {
    hide Inv, Closes;
    var a, x := Flush(y, id, n);
    var m := OfPool(Take);
    InvShaped(x.p);
    MoveOk(x, m);
    var b;
    b, z := HandOver(DoMove(x, m), id, n);
    assert Moves(x, [m] + b, z);
    MovesAppend(y, a, x, [m] + b, z);
    after := a + ([m] + b);
  }

  /** The sends before the cut to this socket will not be handed over any more. */
  ghost predicate Settled(p: Pool, id: Id, cut: nat)
    requires Shaped(p)
  {
    && id in p.started && cut <= |p.pushed|
    && (id in p.mapped ==> forall n: nat :: n < cut && SendTo(p, n, id) ==>
      n in p.done[SEND] || (n in p.pending[SEND] && Closes(p, id)))
  }

  lemma ClosesLess(p: Pool, id: Id, kind: nat, keep: bool)
    requires Can(p, Process(kind, keep)) && Closes(p, id)
    ensures Closes(Processed(p, kind, keep), id) || id !in Processed(p, kind, keep).mapped
  {
    var q := Processed(p, kind, keep);
    var i :| 0 <= i < |p.batch[CLOSE]| && p.batch[CLOSE][i] < |p.pushed| && p.pushed[p.batch[CLOSE][i]].id == id;
    if kind != CLOSE {
      assert q.batch[CLOSE][i] == p.batch[CLOSE][i];
    } else if i > 0 {
      assert q.batch[CLOSE][i - 1] == p.batch[CLOSE][i];
    }
  }

  lemma SettledProcess(p: Pool, id: Id, cut: nat, kind: nat, keep: bool)
    requires Inv(p) && Can(p, Process(kind, keep)) && Settled(p, id, cut)
    ensures Settled(Processed(p, kind, keep), id, cut)
  {
    var q := Processed(p, kind, keep);
    if id in q.mapped {
      if Closes(p, id) {
        ClosesLess(p, id, kind, keep);
      }
      forall n: nat | n < cut && SendTo(q, n, id)
        ensures n in q.done[SEND] || (n in q.pending[SEND] && Closes(q, id))
      {
        assert SendTo(p, n, id);
      }
    }
  }

  lemma SettledPush(p: Pool, id: Id, cut: nat, e: Event)
    requires Inv(p) && Can(p, e) && e.Push? && Settled(p, id, cut)
    ensures Settled(Do(p, e), id, cut)
  {
    var q := Do(p, e);
    if Closes(p, id) {
      var i :| 0 <= i < |p.batch[CLOSE]| && p.batch[CLOSE][i] < |p.pushed| && p.pushed[p.batch[CLOSE][i]].id == id;
      assert q.pushed[q.batch[CLOSE][i]].id == id;
    }
    forall n: nat | n < cut && SendTo(q, n, id) && id in p.mapped
      ensures n in q.done[SEND] || (n in q.pending[SEND] && Closes(q, id))
    {
      assert SendTo(p, n, id);
    }
  }

  lemma SettledTake(p: Pool, id: Id, cut: nat)
    requires Inv(p) && Can(p, Take) && Settled(p, id, cut)
    ensures Settled(Do(p, Take), id, cut)
  {
    var q := Do(p, Take);
    forall n: nat | n < cut && SendTo(q, n, id) && id in p.mapped
      ensures n in q.done[SEND]
    {
      assert SendTo(p, n, id);
    }
  }

  lemma SettledOther(p: Pool, q: Pool, id: Id, cut: nat)
    requires Inv(p) && Settled(p, id, cut) && p.started <= q.started
    requires q == p.(mapped := q.mapped, started := q.started) && (id in q.mapped ==> id in p.mapped)
    ensures Settled(q, id, cut)
  {
    forall n: nat | n < cut && SendTo(q, n, id) && id in q.mapped
      ensures n in q.done[SEND] || (n in q.pending[SEND] && Closes(q, id))
    {
      assert SendTo(p, n, id);
    }
  }

  lemma SettledMove(y: System, m: Move, id: Id, cut: nat)
    requires SystemOk(y) && CanMove(y, m) && Settled(y.p, id, cut)
    ensures Shaped(DoMove(y, m).p) && Settled(DoMove(y, m).p, id, cut)
  {
    hide Inv, Processed, WireOk;
    MoveOk(y, m);
    InvShaped(DoMove(y, m).p);
    hide Settled;
    match m
    case OfPool(e) => SettledEvent(y.p, e, id, cut);
    case Send(_, _) => SettledOther(y.p, DoMove(y, m).p, id, cut);
  }

  lemma SettledEvent(p: Pool, e: Event, id: Id, cut: nat)
    requires Inv(p) && Can(p, e) && Settled(p, id, cut)
    ensures Shaped(Do(p, e)) && Settled(Do(p, e), id, cut)
  {
    hide Processed;
    DoInv(p, e);
    match e
    case Push(_, _) => SettledPush(p, id, cut, e);
    case Take => SettledTake(p, id, cut);
    case Process(kind, keep) => SettledProcess(p, id, cut, kind, keep);
    case Start(_) => SettledOther(p, Do(p, e), id, cut);
    case Lose(_) => SettledOther(p, Do(p, e), id, cut);
    case Exit => assert id !in Do(p, e).mapped;
  }

  /** No move puts a settled send on the wire. */
  lemma SettledWire(y: System, m: Move, id: Id, cut: nat, n: nat)
    requires SystemOk(y) && CanMove(y, m) && Settled(y.p, id, cut) && n < cut && SendTo(y.p, n, id)
    ensures Queued(n) in DoMove(y, m).wire ==> Queued(n) in y.wire
    ensures SendTo(DoMove(y, m).p, n, id)
  {
    if m.OfPool? && m.e.Process? && Hands(y.p, m.e) && y.p.batch[SEND][0] == n {
      OnePlace(y.p, n);
    }
  }

  lemma {:induction false} NeverHandedOver(y: System, moves: seq<Move>, z: System, id: Id, cut: nat, n: nat)
    requires SystemOk(y) && Moves(y, moves, z) && Settled(y.p, id, cut) && n < cut && SendTo(y.p, n, id)
    ensures Queued(n) in z.wire ==> Queued(n) in y.wire
    decreases |moves|
  {
    hide Inv, WireOk, Settled, CanMove, DoMove;
    if moves != [] {
      var x := DoMove(y, moves[0]);
      MoveOk(y, moves[0]);
      SettledMove(y, moves[0], id, cut);
      SettledWire(y, moves[0], id, cut, n);
      NeverHandedOver(x, moves[1..], z, id, cut, n);
    }
  }

  /** Every send is done, in the batch or pending. */
  lemma OneOfThree(p: Pool, n: nat, id: Id)
    requires Inv(p) && !p.exited && SendTo(p, n, id)
    ensures n in p.done[SEND] || n in p.batch[SEND] || n in p.pending[SEND]
  {
    PositionsAre(p.pushed, SEND);
    assert p.dropped[SEND] == [];
    assert n in p.done[SEND] + (p.dropped[SEND] + (p.batch[SEND] + p.pending[SEND]));
  }

  lemma SettledFrom(y: System, id: Id, keep: bool)
    requires SystemOk(y) && id in y.p.mapped && !(keep && Waits(y.p, id))
    ensures Settled(DoMove(y, Send(id, keep)).p, id, |y.p.pushed|)
  {
    var q := DoMove(y, Send(id, keep)).p;
    if id in q.mapped {
      forall n: nat | n < |y.p.pushed| && SendTo(q, n, id)
        ensures n in q.done[SEND] || (n in q.pending[SEND] && Closes(q, id))
      {
        assert SendTo(y.p, n, id);
        OneOfThree(y.p, n, id);
      }
    }
  }

  lemma NotOvertaken(y: System, id: Id, keep: bool, after: seq<Move>, z: System, n: nat)
    requires SystemOk(y) && id in y.p.mapped && !(keep && Waits(y.p, id))
    requires SendTo(y.p, n, id) && Moves(DoMove(y, Send(id, keep)), after, z)
    ensures |y.wire| < |z.wire| && Queued(n) !in z.wire[|y.wire|..]
  {
    hide Inv, Moves;
    InvShaped(y.p);
    var x := DoMove(y, Send(id, keep));
    MoveOk(y, Send(id, keep));
    MovesOk(x, after, z);
    MovesLater(x, after, z);
    SettledFrom(y, id, keep);
    NeverHandedOver(x, after, z, id, |y.p.pushed|, n);
    assert z.wire == z.wire[..|y.wire|] + z.wire[|y.wire|..];
    assert z.wire[..|y.wire|] == y.wire;
    if Queued(n) in y.wire {
      OnlyOnce(z, |y.wire|, n);
    }
  }

  lemma WaitingIsOvertaken(y: System, id: Id) returns (after: seq<Move>, z: System, n: nat)
    requires SystemOk(y) && id in y.p.mapped && Waits(y.p, id)
    ensures Overtakes(y, id, true, after, z, n)
  {
    hide Inv, Moves, WireOk;
    InvShaped(y.p);
    var x := DoMove(y, Send(id, true));
    MoveOk(y, Send(id, true));
    assert x.p == y.p;
    if exists n: nat :: n in y.p.batch[SEND] && SendTo(y.p, n, id) {
      n :| n in y.p.batch[SEND] && SendTo(y.p, n, id);
      OnePlace(y.p, n);
      after, z := HandOver(x, id, n);
    } else {
      n :| n in y.p.pending[SEND] && SendTo(y.p, n, id);
      PendingNotDone(y.p, n);
      after, z := HandOverPending(x, id, n);
    }
    MovesOk(x, after, z);
    MovesLater(x, after, z);
    LaterOnWire(y, x, z, n);
  }

  lemma LaterOnWire(y: System, x: System, z: System, n: nat)
    requires Shaped(x.p) && Shaped(z.p) && WireOk(x) && WireOk(z) && x.wire == y.wire + [Direct] && x.wire <= z.wire
    requires n in z.p.handed && n !in x.p.done[SEND]
    ensures Queued(n) in z.wire[|y.wire|..]
  {
    assert Queued(n) !in x.wire && Queued(n) in z.wire;
    assert z.wire == x.wire + z.wire[|x.wire|..];
    assert z.wire[|y.wire|..] == [Direct] + z.wire[|x.wire|..];
  }

  lemma PendingNotDone(p: Pool, n: nat)
    requires Inv(p) && n in p.pending[SEND]
    ensures n !in p.done[SEND]
  {
    var cut :| Cut(p, cut);
    assert AllBelow(p.done[SEND], cut) && AllFrom(p.pending[SEND], cut);
  }

  /** Exactly when direct sends break the order: in a reachable state, some run from a direct send to a running
      connection on puts an earlier queued send to the same connection behind it, if and only if the write path keeps
      the connection and such a send waits in the batch, or is pending with no close of the connection in the batch. */
  lemma OvertakesIffWaiting(before: seq<Move>, y: System, id: Id, keep: bool)
    requires Moves(Begin(), before, y) && Shaped(y.p) && id in y.p.mapped
    ensures (exists after, z, n: nat :: Overtakes(y, id, keep, after, z, n)) <==> keep && Waits(y.p, id)
  {
    hide Inv, Moves, Waits;
    BeginOk();
    MovesOk(Begin(), before, y);
    if keep && Waits(y.p, id) {
      var after, z, n := WaitingIsOvertaken(y, id);
      assert Overtakes(y, id, keep, after, z, n);
    }
    forall after, z, n: nat | Overtakes(y, id, keep, after, z, n)
      ensures keep && Waits(y.p, id)
    {
      if !(keep && Waits(y.p, id)) {
        NotOvertaken(y, id, keep, after, z, n);
      }
    }
  }

  /** A run: a user pushes a send to a running connection, then sends to it directly in a callback of the loop. */
  lemma DirectSendOvertakes(id: Id) returns (moves: seq<Move>, z: System)
    ensures Moves(Begin(), moves, z) && z.p.pushed == [Request(SEND, id, true)] && z.wire == [Direct, Queued(0)]
  {
    var m := [OfPool(Start(id)), OfPool(Push(SEND, id)), Send(id, true), OfPool(Take),
              OfPool(Process(SEND, true))];
    moves := m;
    var a := DoMove(Begin(), m[0]);
    var b := DoMove(a, m[1]);
    var c := DoMove(b, m[2]);
    var d := DoMove(c, m[3]);
    z := DoMove(d, m[4]);
    assert d.p.batch[SEND] == [0];
    assert Moves(z, m[5..], z);
    assert Moves(d, m[4..], z);
    assert Moves(c, m[3..], z);
    assert Moves(b, m[2..], z);
    assert Moves(a, m[1..], z);
  }
}
