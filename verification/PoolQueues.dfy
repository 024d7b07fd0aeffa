/** The five request queues of the pool, which any thread pushes to and the loop thread drains in batches, one queue
    after the other. One event is one push under the lock, the move of all queues into a batch under the lock, one
    request of the batch, or a change of the connection map by another callback. */
module PoolQueues {
  import opened Bytes

  type Id = nat

  /** The queues in the order in which a batch is processed: binds, TCP sends, UDP sends, connects, closes. */
  const KINDS: nat := 5
  const SEND: nat := 1
  const CLOSE: nat := 4

  /** A request is named by its position among all requests ever pushed. `known`: the socket had been started when the
      request was pushed, so that the id came from the pool. */
  datatype Request = Request(kind: nat, id: Id, known: bool)

  /** `handed` has the TCP sends that were handed to the write path, `dropped` the requests that pool exit destroyed. */
  datatype Pool = Pool(
    pushed: seq<Request>,
    pending: seq<seq<nat>>,
    batch: seq<seq<nat>>,
    done: seq<seq<nat>>,
    dropped: seq<seq<nat>>,
    mapped: set<Id>,
    started: set<Id>,
    handed: set<nat>,
    exited: bool)

  datatype Event =
    | Push(kind: nat, id: Id)
    | Take
    | Process(kind: nat, keep: bool)
    | Start(id: Id)
    | Lose(id: Id)
    | Exit

  predicate Empty(queues: seq<seq<nat>>) {
    forall k :: 0 <= k < |queues| ==> queues[k] == []
  }

  predicate Shaped(p: Pool) {
    |p.pending| == |p.batch| == |p.done| == |p.dropped| == KINDS
  }

  predicate Can(p: Pool, e: Event) {
    && Shaped(p)
    && match e
      case Push(kind, _) => kind < KINDS
      case Take => Empty(p.batch) && !p.exited
      case Process(kind, _) =>
        && kind < KINDS && p.batch[kind] != [] && p.batch[kind][0] < |p.pushed|
        && forall j :: 0 <= j < kind ==> p.batch[j] == []
      case Start(id) => id !in p.started && !p.exited
      case Lose(_) => true
      case Exit => Empty(p.batch) && !p.exited
  }

  function None(): seq<seq<nat>> {
    [[], [], [], [], []]
  }

  /** The first request of a queue of the batch. A send to a running connection is handed to the write path, and the
      connection is lost if the write fails; a close loses it. `keep` is the answer of the write path. */
  function Processed(p: Pool, kind: nat, keep: bool): Pool
    requires Can(p, Process(kind, keep))
  {
    var n := p.batch[kind][0];
    var id := p.pushed[n].id;
    var q := p.(batch := p.batch[kind := p.batch[kind][1..]], done := p.done[kind := p.done[kind] + [n]]);
    if kind == SEND && id in p.mapped then
      q.(handed := q.handed + {n}, mapped := if keep then q.mapped else q.mapped - {id})
    else if kind == CLOSE then q.(mapped := q.mapped - {id})
    else q
  }

  function Do(p: Pool, e: Event): Pool
    requires Can(p, e)
  {
    match e
    case Push(kind, id) =>
      p.(pushed := p.pushed + [Request(kind, id, id in p.started)],
         pending := p.pending[kind := p.pending[kind] + [|p.pushed|]])
    case Take => p.(batch := p.pending, pending := None())
    case Process(kind, keep) => Processed(p, kind, keep)
    case Start(id) => p.(mapped := p.mapped + {id}, started := p.started + {id})
    case Lose(id) => p.(mapped := p.mapped - {id})
    case Exit => p.(pending := None(), dropped := p.pending, mapped := {}, exited := true)
  }

  function Initial(): Pool {
    Pool([], None(), None(), None(), None(), {}, {}, {}, false)
  }

  /** The positions of the requests of one kind. */
  function Positions(rs: seq<Request>, kind: nat): seq<nat> {
    if rs == [] then []
    else
      var n := |rs| - 1;
      Positions(rs[..n], kind) + (if rs[n].kind == kind then [n] else [])
  }

  lemma PositionsSnoc(rs: seq<Request>, r: Request, kind: nat)
    ensures Positions(rs + [r], kind) == Positions(rs, kind) + (if r.kind == kind then [|rs|] else [])
  {
    assert (rs + [r])[..|rs|] == rs;
  }

  lemma {:induction false} PositionsAre(rs: seq<Request>, kind: nat)
    ensures forall n: nat :: n in Positions(rs, kind) <==> n < |rs| && rs[n].kind == kind
  {
    if rs != [] {
      var last := |rs| - 1;
      PositionsAre(rs[..last], kind);
      forall n: nat
        ensures n in Positions(rs, kind) <==> n < |rs| && rs[n].kind == kind
      {
        assert n in Positions(rs, kind) <==> n in Positions(rs[..last], kind) || (n == last && rs[last].kind == kind);
      }
    }
  }

  lemma {:induction false} PositionsIncrease(rs: seq<Request>, kind: nat)
    ensures forall i, j :: 0 <= i < j < |Positions(rs, kind)| ==> Positions(rs, kind)[i] < Positions(rs, kind)[j]
  {
    if rs != [] {
      var init := rs[..|rs| - 1];
      PositionsIncrease(init, kind);
      PositionsAre(init, kind);
      assert forall i :: 0 <= i < |Positions(init, kind)| ==> Positions(init, kind)[i] in Positions(init, kind);
    }
  }

  /** Requests of one kind are processed in the order in which they were pushed, each once; those that exit destroyed
      come behind the ones that were processed. */
  predicate InOrder(p: Pool)
    requires Shaped(p)
  {
    forall k :: 0 <= k < KINDS ==> Positions(p.pushed, k) == p.done[k] + (p.dropped[k] + (p.batch[k] + p.pending[k]))
  }

  /** Exit destroys requests, nothing does before it, and no batch is taken after it. */
  predicate ExitOk(p: Pool)
    requires Shaped(p)
  {
    if p.exited then Empty(p.batch) else Empty(p.dropped)
  }

  predicate AllBelow(ns: seq<nat>, cut: nat) {
    forall n :: n in ns ==> n < cut
  }

  predicate AllFrom(ns: seq<nat>, cut: nat) {
    forall n :: n in ns ==> cut <= n
  }

  /** What was taken was pushed before what is still pending, across all queues. */
  predicate Cut(p: Pool, cut: nat)
    requires Shaped(p)
  {
    && cut <= |p.pushed|
    && forall k :: 0 <= k < KINDS ==>
      AllBelow(p.batch[k], cut) && AllBelow(p.done[k], cut) && AllFrom(p.pending[k], cut)
  }

  /** A socket that is running has been handed every send of the past that was pushed to it after it started. */
  predicate HandedOk(p: Pool)
    requires Shaped(p)
  {
    && p.mapped <= p.started
    && (forall n :: 0 <= n < |p.pushed| && p.pushed[n].known ==> p.pushed[n].id in p.started)
    && (forall n :: n in p.done[SEND] && n < |p.pushed| && p.pushed[n].known && p.pushed[n].id in p.mapped ==>
      n in p.handed)
  }

  ghost predicate Inv(p: Pool) {
    Shaped(p) && InOrder(p) && ExitOk(p) && HandedOk(p) && exists cut :: Cut(p, cut)
  }

  lemma PushInv(p: Pool, kind: nat, id: Id)
    requires Inv(p) && Can(p, Push(kind, id))
    ensures Inv(Do(p, Push(kind, id)))
  {
    var q := Do(p, Push(kind, id));
    var r := Request(kind, id, id in p.started);
    forall k | 0 <= k < KINDS
      ensures Positions(q.pushed, k) == q.done[k] + (q.dropped[k] + (q.batch[k] + q.pending[k]))
    {
      PositionsSnoc(p.pushed, r, k);
      if k == kind {
        Assoc(p.batch[k], p.pending[k], [|p.pushed|]);
        Assoc(p.dropped[k], p.batch[k] + p.pending[k], [|p.pushed|]);
        Assoc(p.done[k], p.dropped[k] + (p.batch[k] + p.pending[k]), [|p.pushed|]);
      }
    }
    var cut :| Cut(p, cut);
    assert Cut(q, cut);
    DoneBelow(p);
  }

  lemma DoneBelow(p: Pool)
    requires Shaped(p) && exists cut :: Cut(p, cut)
    ensures AllBelow(p.done[SEND], |p.pushed|)
  {
  }

  lemma TakeInv(p: Pool)
    requires Inv(p) && Can(p, Take)
    ensures Inv(Do(p, Take))
  {
    var q := Do(p, Take);
    forall k | 0 <= k < KINDS
      ensures Positions(q.pushed, k) == q.done[k] + (q.dropped[k] + (q.batch[k] + q.pending[k]))
      ensures AllBelow(q.batch[k], |q.pushed|)
    {
      assert p.batch[k] == [] && p.dropped[k] == [];
      assert p.dropped[k] + (p.batch[k] + p.pending[k]) == p.pending[k];
      PositionsAre(p.pushed, k);
      forall n | n in q.batch[k]
        ensures n < |q.pushed|
      {
        assert n in p.done[k] + (p.dropped[k] + (p.batch[k] + p.pending[k]));
      }
    }
    assert Cut(q, |q.pushed|);
  }

  lemma ProcessOrder(p: Pool, kind: nat, keep: bool)
    requires Inv(p) && Can(p, Process(kind, keep))
    ensures var q := Processed(p, kind, keep); Shaped(q) && InOrder(q) && ExitOk(q) && exists cut :: Cut(q, cut)
  {
    var q := Processed(p, kind, keep);
    var n := p.batch[kind][0];
    forall k | 0 <= k < KINDS
      ensures Positions(q.pushed, k) == q.done[k] + (q.dropped[k] + (q.batch[k] + q.pending[k]))
    {
      assert p.dropped[k] == [];
      if k == kind {
        MoveOne(p.done[k], p.batch[k], p.pending[k]);
        assert p.dropped[k] + (q.batch[k] + q.pending[k]) == q.batch[k] + q.pending[k];
        assert p.dropped[k] + (p.batch[k] + p.pending[k]) == p.batch[k] + p.pending[k];
      }
    }
    ProcessCut(p, kind, keep);
  }

  lemma MoveOne(done: seq<nat>, batch: seq<nat>, pending: seq<nat>)
    requires batch != []
    ensures done + [batch[0]] + (batch[1..] + pending) == done + (batch + pending)
  {
  }

  lemma TailBelow(ns: seq<nat>, cut: nat)
    requires AllBelow(ns, cut) && ns != []
    ensures AllBelow(ns[1..], cut)
  {
    assert ns == [ns[0]] + ns[1..];
    forall n | n in ns[1..]
      ensures n < cut
    {
      assert n in [ns[0]] + ns[1..];
    }
  }

  lemma ProcessCut(p: Pool, kind: nat, keep: bool)
    requires Inv(p) && Can(p, Process(kind, keep))
    ensures Shaped(Processed(p, kind, keep)) && exists cut :: Cut(Processed(p, kind, keep), cut)
  {
    var cut :| Cut(p, cut);
    var q := Processed(p, kind, keep);
    assert p.batch[kind][0] in p.batch[kind];
    forall k | 0 <= k < KINDS
      ensures AllBelow(q.batch[k], cut) && AllBelow(q.done[k], cut) && AllFrom(q.pending[k], cut)
    {
      assert AllBelow(p.batch[k], cut) && AllBelow(p.done[k], cut);
      TailBelow(p.batch[kind], cut);
    }
    assert Cut(q, cut);
  }

  lemma ProcessHanded(p: Pool, kind: nat, keep: bool)
    requires Inv(p) && Can(p, Process(kind, keep))
    ensures HandedOk(Processed(p, kind, keep))
  {
  }

  lemma DoInv(p: Pool, e: Event)
    requires Inv(p) && Can(p, e)
    ensures Inv(Do(p, e))
  {
    hide Processed, InOrder;
    match e
    case Push(kind, id) => PushInv(p, kind, id);
    case Take => TakeInv(p);
    case Process(kind, keep) =>
      ProcessOrder(p, kind, keep);
      ProcessHanded(p, kind, keep);
    case Start(id) => StartInv(p, id);
    case Lose(id) => MapInv(p, Do(p, e));
    case Exit => ExitInv(p);
  }

  lemma StartInv(p: Pool, id: Id)
    requires Inv(p) && Can(p, Start(id))
    ensures Inv(Do(p, Start(id)))
  {
    var cut :| Cut(p, cut);
    assert Cut(Do(p, Start(id)), cut);
  }

  lemma ExitInv(p: Pool)
    requires Inv(p) && Can(p, Exit)
    ensures Inv(Do(p, Exit))
  {
    var q := Do(p, Exit);
    forall k | 0 <= k < KINDS
      ensures Positions(q.pushed, k) == q.done[k] + (q.dropped[k] + (q.batch[k] + q.pending[k]))
    {
      assert p.dropped[k] == [] && p.batch[k] == [];
      assert p.dropped[k] + (p.batch[k] + p.pending[k]) == p.pending[k];
      assert q.dropped[k] + (q.batch[k] + q.pending[k]) == p.pending[k];
    }
    var cut :| Cut(p, cut);
    assert Cut(q, cut);
  }

  lemma MapInv(p: Pool, q: Pool)
    requires Inv(p) && q == p.(mapped := q.mapped) && q.mapped <= p.mapped
    ensures Inv(q)
  {
    var cut :| Cut(p, cut);
    assert Cut(q, cut);
  }

  predicate Reaches(p: Pool, events: seq<Event>, q: Pool)
    decreases |events|
  {
    if events == [] then q == p else Can(p, events[0]) && Reaches(Do(p, events[0]), events[1..], q)
  }

  lemma {:induction false} ReachesInv(p: Pool, events: seq<Event>, q: Pool)
    requires Inv(p) && Reaches(p, events, q)
    ensures Inv(q)
    decreases |events|
  {
    hide Inv, Can, Do;
    if events != [] {
      DoInv(p, events[0]);
      ReachesInv(Do(p, events[0]), events[1..], q);
    }
  }

  lemma InitialInv()
    ensures Inv(Initial())
  {
    assert Cut(Initial(), 0);
  }

  /** Before a request is processed, everything that was pushed before it to a queue that comes earlier in a batch has
      been processed, although the queues are separate. */
  lemma EarlierIsDone(p: Pool, kind: nat, keep: bool, lower: nat, n: nat)
    requires Inv(p) && Can(p, Process(kind, keep)) && lower <= kind
    requires n < p.batch[kind][0] && p.pushed[n].kind == lower
    ensures n in p.done[lower]
  {
    PositionsAre(p.pushed, lower);
    var c := p.batch[kind][0];
    var cut :| Cut(p, cut);
    assert c in p.batch[kind] && c < cut;
    assert p.dropped[lower] == [];
    assert n in p.done[lower] + (p.dropped[lower] + (p.batch[lower] + p.pending[lower]));
    assert n !in p.pending[lower];
    if n in p.batch[lower] {
      FirstIsLeast(p, kind, n);
    }
  }

  lemma FirstIsLeast(p: Pool, kind: nat, n: nat)
    requires Shaped(p) && InOrder(p) && ExitOk(p) && kind < KINDS && p.batch[kind] != [] && n in p.batch[kind]
    ensures p.batch[kind][0] <= n
  {
    var all := Positions(p.pushed, kind);
    PositionsIncrease(p.pushed, kind);
    var i :| 0 <= i < |p.batch[kind]| && p.batch[kind][i] == n;
    var d := |p.done[kind]|;
    assert p.dropped[kind] == [];
    assert all[d] == p.batch[kind][0] && all[d + i] == n;
  }

  /** A close never overtakes an earlier send: when a close is processed, each TCP send pushed before it has been
      processed, and each one to the same socket has been handed to the write path if that socket is still running and
      had started when the send was pushed. */
  lemma CloseNeverOvertakesSend(events: seq<Event>, p: Pool, keep: bool, n: nat)
    requires Reaches(Initial(), events, p) && Can(p, Process(CLOSE, keep))
    requires n < p.batch[CLOSE][0] && p.pushed[n].kind == SEND
    ensures n in p.done[SEND]
    ensures var c := p.pushed[p.batch[CLOSE][0]];
      p.pushed[n].known && p.pushed[n].id == c.id && c.id in p.mapped ==> n in p.handed
  {
    hide Reaches;
    InitialInv();
    ReachesInv(Initial(), events, p);
    EarlierIsDone(p, CLOSE, keep, SEND, n);
  }

  /** Sends are processed in the order of their pushes, across all batches and each at most once. Before pool exit none
      is lost: what is not done is in the batch or pending. Those that exit destroyed come behind all that were done. */
  lemma SendsInOrder(events: seq<Event>, p: Pool)
    requires Reaches(Initial(), events, p)
    ensures Shaped(p)
    ensures Positions(p.pushed, SEND) == p.done[SEND] + (p.dropped[SEND] + (p.batch[SEND] + p.pending[SEND]))
    ensures forall i, j :: 0 <= i < j < |p.done[SEND]| ==> p.done[SEND][i] < p.done[SEND][j]
    ensures !p.exited ==> forall n :: 0 <= n < |p.pushed| && p.pushed[n].kind == SEND ==>
      n in p.done[SEND] || n in p.batch[SEND] || n in p.pending[SEND]
  {
    hide Reaches;
    InitialInv();
    ReachesInv(Initial(), events, p);
    var all := Positions(p.pushed, SEND);
    PositionsAre(p.pushed, SEND);
    PositionsIncrease(p.pushed, SEND);
    assert forall i :: 0 <= i < |p.done[SEND]| ==> all[i] == p.done[SEND][i];
    if !p.exited {
      assert p.dropped[SEND] == [];
      assert all == p.done[SEND] + (p.batch[SEND] + p.pending[SEND]);
    }
  }

  /** Pool exit destroys exactly the requests that were pushed and not processed, of every kind, and from then on none
      is processed any more. */
  lemma ExitDropsThePending(before: seq<Event>, p: Pool, after: seq<Event>, q: Pool)
    requires Reaches(Initial(), before, p) && Can(p, Exit) && Reaches(Do(p, Exit), after, q)
    ensures q.exited && q.done == p.done && q.handed == p.handed
    ensures q.dropped == p.pending && |p.pending| == |p.done| == KINDS
    ensures forall n :: 0 <= n < |p.pushed| && p.pushed[n].kind < KINDS ==>
      (n in q.dropped[p.pushed[n].kind] <==> n !in p.done[p.pushed[n].kind])
  {
    hide Reaches;
    InitialInv();
    ReachesInv(Initial(), before, p);
    DoInv(p, Exit);
    NothingAfterExit(Do(p, Exit), after, q);
    forall n | 0 <= n < |p.pushed| && p.pushed[n].kind < KINDS
      ensures n in p.pending[p.pushed[n].kind] <==> n !in p.done[p.pushed[n].kind]
    {
      OneOfTwo(p, n);
    }
  }

  lemma OneOfTwo(p: Pool, n: nat)
    requires Inv(p) && Can(p, Exit) && n < |p.pushed| && p.pushed[n].kind < KINDS
    ensures n in p.pending[p.pushed[n].kind] <==> n !in p.done[p.pushed[n].kind]
  {
    var k := p.pushed[n].kind;
    PositionsAre(p.pushed, k);
    assert p.dropped[k] == [] && p.batch[k] == [];
    assert p.dropped[k] + (p.batch[k] + p.pending[k]) == p.pending[k];
    assert n in p.done[k] + p.pending[k];
    var cut :| Cut(p, cut);
    assert AllBelow(p.done[k], cut) && AllFrom(p.pending[k], cut);
  }

  lemma {:induction false} NothingAfterExit(p: Pool, events: seq<Event>, q: Pool)
    requires Inv(p) && p.exited && Reaches(p, events, q)
    ensures q.exited && q.done == p.done && q.dropped == p.dropped && q.handed == p.handed
    decreases |events|
  {
    hide Inv;
    if events != [] {
      DoInv(p, events[0]);
      AfterExit(p, events[0]);
      NothingAfterExit(Do(p, events[0]), events[1..], q);
    }
  }

  lemma AfterExit(p: Pool, e: Event)
    requires Inv(p) && p.exited && Can(p, e)
    ensures var q := Do(p, e); q.exited && q.done == p.done && q.dropped == p.dropped && q.handed == p.handed
  {
  }

  /** A connection that was started and is gone. */
  predicate Lost(p: Pool, id: Id) {
    id in p.started && id !in p.mapped
  }

  lemma {:induction false} StaysLost(p: Pool, events: seq<Event>, q: Pool, id: Id)
    requires Lost(p, id) && Reaches(p, events, q)
    ensures Lost(q, id)
    decreases |events|
  {
    if events != [] {
      StaysLost(Do(p, events[0]), events[1..], q, id);
    }
  }

  /** The event ends the connection: its own end, pool exit, its close, or a send to it that the write path refuses. */
  predicate Ends(p: Pool, e: Event, id: Id)
    requires Can(p, e)
  {
    match e
    case Lose(other) => other == id
    case Exit => true
    case Process(kind, keep) => p.pushed[p.batch[kind][0]].id == id && (kind == 4 || (kind == 1 && !keep))
    case _ => false
  }

  /** A started connection is lost for good exactly by such an event: by any of them, and by no other. */
  lemma LostForGood(before: seq<Event>, p: Pool, e: Event, after: seq<Event>, q: Pool, id: Id)
    requires Reaches(Initial(), before, p) && Can(p, e) && id in p.mapped && Reaches(Do(p, e), after, q)
    ensures id in p.started && (Ends(p, e, id) <==> id !in Do(p, e).mapped)
    ensures Ends(p, e, id) ==> id !in q.mapped
  {
    hide Reaches;
    InitialInv();
    ReachesInv(Initial(), before, p);
    DoInv(p, e);
    if Ends(p, e, id) {
      StaysLost(Do(p, e), after, q, id);
    }
  }

  /** The request is a send that the write path refuses. */
  predicate Refused(rs: seq<Request>, n: nat, id: Id, fails: set<nat>) {
    n < |rs| && rs[n].id == id && n in fails
  }

  /** The connections that are left behind a queue: a refused send loses its own, a close the one it names. */
  function LeftBehind(m: set<Id>, rs: seq<Request>, kind: nat, ns: seq<nat>, fails: set<nat>): set<Id> {
    if kind == 1 then set id | id in m && !exists n :: n in ns && Refused(rs, n, id, fails)
    else if kind == 4 then set id | id in m && !exists n :: n in ns && n < |rs| && rs[n].id == id
    else m
  }

  /** The send reaches the write path: its connection is there, and no earlier refused send has lost it. */
  predicate Reached(m: set<Id>, rs: seq<Request>, ns: seq<nat>, fails: set<nat>, i: nat)
    requires i < |ns|
  {
    && ns[i] < |rs| && rs[ns[i]].id in m
    && !exists j :: 0 <= j < i && Refused(rs, ns[j], rs[ns[i]].id, fails)
  }

  function HandedBy(m: set<Id>, rs: seq<Request>, kind: nat, ns: seq<nat>, fails: set<nat>): set<nat> {
    if kind == 1 then set i | 0 <= i < |ns| && Reached(m, rs, ns, fails, i) :: ns[i] else {}
  }

  /** The connections behind the first request of a queue. */
  function MappedNext(m: set<Id>, rs: seq<Request>, kind: nat, n: nat, fails: set<nat>): set<Id>
    requires n < |rs|
  {
    var id := rs[n].id;
    if (kind == SEND && id in m && n in fails) || kind == CLOSE then m - {id} else m
  }

  lemma RefusedNext(rs: seq<Request>, ns: seq<nat>, id: Id, fails: set<nat>)
    requires ns != []
    ensures (exists n :: n in ns && Refused(rs, n, id, fails))
      <==> Refused(rs, ns[0], id, fails) || exists n :: n in ns[1..] && Refused(rs, n, id, fails)
  {
    hide Refused;
    assert ns == [ns[0]] + ns[1..];
    if exists n :: n in ns && Refused(rs, n, id, fails) {
      var n :| n in ns && Refused(rs, n, id, fails);
      assert n == ns[0] || n in ns[1..];
    }
    if exists n :: n in ns[1..] && Refused(rs, n, id, fails) {
      var n :| n in ns[1..] && Refused(rs, n, id, fails);
      assert n in ns;
    }
  }

  lemma LeftBehindNext(m: set<Id>, rs: seq<Request>, kind: nat, ns: seq<nat>, fails: set<nat>)
    requires ns != [] && ns[0] < |rs|
    ensures LeftBehind(MappedNext(m, rs, kind, ns[0], fails), rs, kind, ns[1..], fails)
         == LeftBehind(m, rs, kind, ns, fails)
  {
    var m' := MappedNext(m, rs, kind, ns[0], fails);
    assert forall n :: n in ns <==> n == ns[0] || n in ns[1..];
    if kind == 1 {
      forall id
        ensures id in LeftBehind(m', rs, 1, ns[1..], fails) <==> id in LeftBehind(m, rs, 1, ns, fails)
      {
        RefusedNext(rs, ns, id, fails);
      }
    } else if kind == 4 {
      assert forall id :: id in LeftBehind(m', rs, 4, ns[1..], fails) <==> id in LeftBehind(m, rs, 4, ns, fails);
    }
  }

  lemma ReachedNext(m: set<Id>, rs: seq<Request>, ns: seq<nat>, fails: set<nat>, i: nat)
    requires ns != [] && ns[0] < |rs| && 0 < i < |ns|
    ensures Reached(MappedNext(m, rs, 1, ns[0], fails), rs, ns[1..], fails, i - 1) <==> Reached(m, rs, ns, fails, i)
  {
    var m' := MappedNext(m, rs, 1, ns[0], fails);
    if ns[i] < |rs| {
      var id := rs[ns[i]].id;
      if exists j :: 0 <= j < i && Refused(rs, ns[j], id, fails) {
        var j :| 0 <= j < i && Refused(rs, ns[j], id, fails);
        assert j > 0 ==> Refused(rs, ns[1..][j - 1], id, fails);
      }
      if exists j :: 0 <= j < i - 1 && Refused(rs, ns[1..][j], id, fails) {
        var j :| 0 <= j < i - 1 && Refused(rs, ns[1..][j], id, fails);
        assert Refused(rs, ns[j + 1], id, fails);
      }
    }
  }

  lemma HandedNext(m: set<Id>, rs: seq<Request>, kind: nat, ns: seq<nat>, fails: set<nat>)
    requires ns != [] && ns[0] < |rs|
    ensures HandedBy(m, rs, kind, ns, fails)
         == (if kind == 1 && rs[ns[0]].id in m then {ns[0]} else {})
            + HandedBy(MappedNext(m, rs, kind, ns[0], fails), rs, kind, ns[1..], fails)
  {
    if kind == 1 {
      hide Reached, MappedNext;
      var m' := MappedNext(m, rs, kind, ns[0], fails);
      ReachedFirst(m, rs, ns, fails);
      forall i | 0 < i < |ns|
        ensures Reached(m', rs, ns[1..], fails, i - 1) <==> Reached(m, rs, ns, fails, i)
      {
        ReachedNext(m, rs, ns, fails, i);
      }
      HandedShift(m, m', rs, ns, fails);
    }
  }

  lemma ReachedFirst(m: set<Id>, rs: seq<Request>, ns: seq<nat>, fails: set<nat>)
    requires ns != [] && ns[0] < |rs|
    ensures Reached(m, rs, ns, fails, 0) <==> rs[ns[0]].id in m
  {
  }

  lemma HandedShift(m: set<Id>, m': set<Id>, rs: seq<Request>, ns: seq<nat>, fails: set<nat>)
    requires ns != []
    requires forall i :: 0 < i < |ns| ==> (Reached(m', rs, ns[1..], fails, i - 1) <==> Reached(m, rs, ns, fails, i))
    ensures HandedBy(m, rs, 1, ns, fails)
         == (if Reached(m, rs, ns, fails, 0) then {ns[0]} else {}) + HandedBy(m', rs, 1, ns[1..], fails)
  {
    hide Reached;
    var all, rest := HandedBy(m, rs, 1, ns, fails), HandedBy(m', rs, 1, ns[1..], fails);
    forall i | 0 <= i < |ns| && Reached(m, rs, ns, fails, i)
      ensures ns[i] in (if Reached(m, rs, ns, fails, 0) then {ns[0]} else {}) + rest
    {
      if i > 0 {
        assert Reached(m', rs, ns[1..], fails, i - 1) && ns[1..][i - 1] == ns[i];
      }
    }
    forall i | 0 <= i < |ns| - 1 && Reached(m', rs, ns[1..], fails, i)
      ensures ns[1..][i] in all
    {
      assert Reached(m, rs, ns, fails, i + 1) && ns[1..][i] == ns[i + 1];
    }
  }

  lemma NothingLeft(m: set<Id>, rs: seq<Request>, kind: nat, fails: set<nat>)
    ensures LeftBehind(m, rs, kind, [], fails) == m && HandedBy(m, rs, kind, [], fails) == {}
  {
  }

  lemma OtherQueue(m: set<Id>, rs: seq<Request>, kind: nat, ns: seq<nat>, fails: set<nat>, handed: set<nat>)
    requires kind != 1
    ensures handed + HandedBy(m, rs, kind, ns, fails) == handed
    ensures kind != 4 ==> LeftBehind(m, rs, kind, ns, fails) == m
  {
  }

  lemma ProcessedConnections(p: Pool, kind: nat, fails: set<nat>)
    requires kind < |p.batch| && p.batch[kind] != [] && Can(p, Process(kind, p.batch[kind][0] !in fails))
    ensures var n := p.batch[kind][0]; var q := Processed(p, kind, n !in fails);
      && q.mapped == MappedNext(p.mapped, p.pushed, kind, n, fails) && q.pushed == p.pushed
      && q.handed == p.handed + (if kind == 1 && p.pushed[n].id in p.mapped then {n} else {})
  {
  }

  /** The queues as the pool keeps them, and the drain of one batch by the loop thread. */
  class RequestQueues {
    var pending: seq<seq<nat>>
    var batch: seq<seq<nat>>
    var mapped: set<Id>
    var requests: seq<Request>

    /** The sockets ever started; only the specification looks at it. */
    var started: set<Id>

    ghost var done: seq<seq<nat>>
    ghost var dropped: seq<seq<nat>>
    ghost var handed: set<nat>
    ghost var exited: bool

    ghost function Abs(): Pool
      reads this
    {
      Pool(requests, pending, batch, done, dropped, mapped, started, handed, exited)
    }

    constructor ()
      ensures Abs() == Initial() && Inv(Abs())
    {
      pending, batch, mapped, requests := None(), None(), {}, [];
      done, dropped, started, handed, exited := None(), None(), {}, {}, false;
      new;
      InitialInv();
    }

    /** A push of any thread: bind, sendTcp, sendUdp, connect or close, under the lock. */
    method PushRequest(kind: nat, id: Id)
      requires Inv(Abs()) && kind < KINDS
      modifies this`pending, this`requests
      ensures Inv(Abs()) && Abs() == Do(old(Abs()), Push(kind, id))
    {
      PushInv(Abs(), kind, id);
      pending := pending[kind := pending[kind] + [|requests|]];
      requests := requests + [Request(kind, id, id in started)];
    }

    /** One round of such a loop. */
    method ProcessFirst(kind: nat, fails: set<nat>)
      requires Inv(Abs()) && kind < |batch| && batch[kind] != [] && Can(Abs(), Process(kind, batch[kind][0] !in fails))
      modifies this`batch, this`mapped, this`done, this`handed
      ensures Inv(Abs()) && Abs() == Processed(old(Abs()), kind, old(batch)[kind][0] !in fails)
    {
      hide Inv;
      DoInv(Abs(), Process(kind, batch[kind][0] !in fails));
      var n := batch[kind][0];
      var id := requests[n].id;
      batch := batch[kind := batch[kind][1..]];
      done := done[kind := done[kind] + [n]];
      if kind == SEND {
        if id in mapped {
          handed := handed + {n};
          if n in fails {
            mapped := mapped - {id};
          }
        }
      } else if kind == CLOSE {
        mapped := mapped - {id};
      }
    }

    /** The loop over one queue of the batch; `fails` has the sends that the write path refuses. */
    method ProcessQueue(kind: nat, fails: set<nat>)
      requires Inv(Abs()) && |batch| == |done| == KINDS && kind < KINDS && forall j :: 0 <= j < kind ==> batch[j] == []
      modifies this`batch, this`mapped, this`done, this`handed
      ensures Inv(Abs()) && batch == old(batch)[kind := []]
      ensures done == old(done)[kind := old(done)[kind] + old(batch)[kind]]
      ensures mapped == LeftBehind(old(mapped), requests, kind, old(batch)[kind], fails)
      ensures handed == old(handed) + HandedBy(old(mapped), requests, kind, old(batch)[kind], fails)
    {
      hide Inv, Processed, LeftBehind, HandedBy, MappedNext;
      ghost var d, b, m, h := done, batch, mapped, handed;
      while batch[kind] != []
        invariant Inv(Abs()) && |batch| == |done| == KINDS
        invariant LeftBehind(mapped, requests, kind, batch[kind], fails)
               == LeftBehind(m, requests, kind, b[kind], fails)
        invariant handed + HandedBy(mapped, requests, kind, batch[kind], fails)
               == h + HandedBy(m, requests, kind, b[kind], fails)
        invariant batch == b[kind := batch[kind]] && done == d[kind := done[kind]]
        invariant done[kind] + batch[kind] == d[kind] + b[kind]
        decreases |batch[kind]|
      {
        InRange(Abs(), kind);
        InvShaped(Abs());
        ProcessedQueues(Abs(), kind, batch[kind][0] !in fails);
        MoveOne(done[kind], batch[kind], []);
        ProcessedConnections(Abs(), kind, fails);
        LeftBehindNext(mapped, requests, kind, batch[kind], fails);
        HandedNext(mapped, requests, kind, batch[kind], fails);
        ProcessFirst(kind, fails);
      }
      NothingLeft(mapped, requests, kind, fails);
      assert done[kind] + [] == done[kind];
    }

    /** The async callback once it has the lock and no exit is requested: everything pending becomes the batch, and the
        batch is processed to its end, each queue in order. */
    method Drain(fails: set<nat>)
      requires Inv(Abs()) && Empty(batch) && !exited
      modifies this
      ensures Inv(Abs()) && Empty(batch) && requests == old(requests)
      ensures pending == None() && |done| == |old(done)| == |old(pending)| == KINDS
      ensures forall k :: 0 <= k < KINDS ==> done[k] == old(done)[k] + old(pending)[k]
      ensures handed == old(handed) + HandedBy(old(mapped), requests, 1, old(pending)[1], fails)
      ensures var open := LeftBehind(old(mapped), requests, 1, old(pending)[1], fails);
        mapped == LeftBehind(open, requests, 4, old(pending)[4], fails)
    {
      hide Inv, Drained, Empty, LeftBehind, HandedBy;
      InvShaped(Abs());
      TakeInv(Abs());
      ghost var d, b := done, pending;
      batch, pending := pending, None();
      DrainStarts(d, b);
      DrainNext(d, b, done, batch, 0);
      OtherQueue(mapped, requests, 0, batch[0], fails, handed);
      ProcessQueue(0, fails);
      DrainNext(d, b, done, batch, 1);
      ProcessQueue(SEND, fails);
      DrainNext(d, b, done, batch, 2);
      OtherQueue(mapped, requests, 2, batch[2], fails, handed);
      ProcessQueue(2, fails);
      DrainNext(d, b, done, batch, 3);
      OtherQueue(mapped, requests, 3, batch[3], fails, handed);
      ProcessQueue(3, fails);
      DrainNext(d, b, done, batch, 4);
      OtherQueue(mapped, requests, CLOSE, batch[CLOSE], fails, handed);
      ProcessQueue(CLOSE, fails);
      DrainEnds(d, b, done, batch);
    }

    /** The async callback once exit is requested: the queues are moved out and destroyed unprocessed. */
    method ExitDrain()
      requires Inv(Abs()) && Can(Abs(), Exit)
      modifies this
      ensures Inv(Abs()) && Abs() == Do(old(Abs()), Exit)
    {
      ExitInv(Abs());
      dropped := pending;
      pending, mapped, exited := None(), {}, true;
    }
  }

  /** The first `k` queues of the batch `b` are processed: `b'` is left of the batch, and `d` has become `d'`. */
  predicate Drained(d: seq<seq<nat>>, b: seq<seq<nat>>, d': seq<seq<nat>>, b': seq<seq<nat>>, k: nat) {
    && |d| == |b| == |d'| == |b'| == KINDS
    && forall j :: 0 <= j < KINDS ==>
      if j < k then b'[j] == [] && d'[j] == d[j] + b[j] else b'[j] == b[j] && d'[j] == d[j]
  }

  lemma DrainStarts(d: seq<seq<nat>>, b: seq<seq<nat>>)
    requires |d| == |b| == KINDS
    ensures Drained(d, b, d, b, 0)
  {
  }

  lemma DrainNext(d: seq<seq<nat>>, b: seq<seq<nat>>, d': seq<seq<nat>>, b': seq<seq<nat>>, k: nat)
    requires k < KINDS && Drained(d, b, d', b', k)
    ensures |d'| == |b'| == KINDS && forall j :: 0 <= j < k ==> b'[j] == []
    ensures Drained(d, b, d'[k := d'[k] + b'[k]], b'[k := []], k + 1)
  {
  }

  lemma DrainEnds(d: seq<seq<nat>>, b: seq<seq<nat>>, d': seq<seq<nat>>, b': seq<seq<nat>>)
    requires Drained(d, b, d', b', KINDS)
    ensures |d| == |b| == |d'| == KINDS && Empty(b')
    ensures forall k :: 0 <= k < KINDS ==> d'[k] == d[k] + b[k]
  {
  }

  lemma InvShaped(p: Pool)
    requires Inv(p)
    ensures Shaped(p)
  {
  }

  lemma ProcessedQueues(p: Pool, kind: nat, keep: bool)
    requires Can(p, Process(kind, keep))
    ensures var q := Processed(p, kind, keep); var n := p.batch[kind][0];
      q.batch == p.batch[kind := p.batch[kind][1..]] && q.done == p.done[kind := p.done[kind] + [n]]
  {
  }

  lemma InRange(p: Pool, kind: nat)
    requires Inv(p) && kind < KINDS && p.batch[kind] != []
    ensures p.batch[kind][0] < |p.pushed| && |p.batch| == KINDS
  {
    var cut :| Cut(p, cut);
    assert AllBelow(p.batch[kind], cut) && p.batch[kind][0] in p.batch[kind];
  }
}
