/** From the handler back to the socket: what the tasks of a session push, and how it reaches the write path through the
    request queues of the pool. */
module HttpReplies {
  import opened Bytes
  import opened HttpParser
  import opened HttpPipeline
  import opened HttpWorkers
  import O = HttpOrders
  import Q = PoolQueues

  /** Which requests were answered, in the order of the pushes. */
  function Answered(box: seq<Reply>): seq<nat> {
    if box == [] then []
    else
      var last := box[|box| - 1];
      Answered(box[..|box| - 1]) + (if last.Response? then [last.nth] else [])
  }

  lemma AnsweredSnoc(box: seq<Reply>, reply: Reply)
    ensures Answered(box + [reply]) == Answered(box) + (if reply.Response? then [reply.nth] else [])
  {
    assert (box + [reply])[..|box|] == box;
  }

  function UpTo(n: nat): seq<nat> {
    seq(n, i => i)
  }

  /** Once the close is pushed nothing but closes follow. */
  predicate ClosesLast(box: seq<Reply>) {
    forall i, j :: 0 <= i < j < |box| && box[i].CloseIt? ==> box[j].CloseIt?
  }

  /** Every handled request has its response, in order, and a framer that has gone bad its close. If all messages keep
      the connection alive, a close is pushed only by a framer that has gone bad, and then no response follows it. */
  predicate RepliesOk(s: Session) {
    && Answered(s.outbox) == UpTo(|s.handled|)
    && (s.ctx.phase == Bad ==> CloseIt in s.outbox)
    && (AllKeepAlive(MessagesOf(s.total)) ==>
      ClosesLast(s.outbox) && (CloseIt in s.outbox ==> s.ctx.phase == Bad))
  }

  lemma NoReply(s: Session, e: Event)
    requires Ok(s.ctx) && Can(s, e) && !e.Handle? && !e.Analyse?
    ensures Do(s, e).outbox == s.outbox && Do(s, e).handled == s.handled
    ensures !e.Clear? && s.ctx.phase == Bad ==> Do(s, e).ctx.phase == Bad
    ensures Do(s, e).ctx.phase == Bad ==> s.ctx.phase == Bad
    ensures s.total <= Do(s, e).total
  {
  }

  lemma BadStays(p: Parser)
    requires Ok(p) && p.phase == Bad
    ensures Run(p) == p
  {
  }

  lemma ResponsePushed(box: seq<Reply>, n: nat)
    requires Answered(box) == UpTo(n)
    ensures Answered(box + [Response(n)]) == UpTo(n + 1)
    ensures CloseIt !in box ==> CloseIt !in box + [Response(n)] && ClosesLast(box + [Response(n)])
  {
    AnsweredSnoc(box, Response(n));
    assert UpTo(n) + [n] == UpTo(n + 1);
  }

  lemma ClosePushed(box: seq<Reply>)
    ensures Answered(box + [CloseIt]) == Answered(box)
    ensures ClosesLast(box) ==> ClosesLast(box + [CloseIt])
  {
    AnsweredSnoc(box, CloseIt);
    assert Answered(box) + [] == Answered(box);
  }

  /** `analysis` keeps a bad framer bad and closes the socket whenever it ends in one. */
  lemma AnalyseBox(s: Session, w: nat)
    requires Ok(s.ctx) && Can(s, Analyse(w))
    ensures var s' := Do(s, Analyse(w));
      && s'.handled == s.handled && s'.total == s.total && (s.ctx.phase == Bad ==> s'.ctx.phase == Bad)
      && s'.outbox == if s'.ctx.phase == Bad then s.outbox + [CloseIt] else s.outbox
  {
    hide Run, Ok;
    assert s.outbox + [] == s.outbox;
    if s.ctx.phase == Bad {
      BadStays(s.ctx);
    }
  }

  lemma AnalyseReplies(s: Session, w: nat)
    requires Ok(s.ctx) && Can(s, Analyse(w)) && RepliesOk(s)
    ensures RepliesOk(Do(s, Analyse(w)))
  {
    AnalyseBox(s, w);
    ClosePushed(s.outbox);
    hide Do, MessagesOf, Ok, ClosesLast, Answered, UpTo, AllKeepAlive;
  }

  lemma HandleBox(s: Session, w: nat)
    requires Ok(s.ctx) && Can(s, Handle(w))
    ensures var s' := Do(s, Handle(w)); var box := s.outbox + [Response(|s.handled|)];
      && |s'.handled| == |s.handled| + 1 && s'.total == s.total && s'.ctx == s.ctx
      && s'.outbox == if s.ctx.flags.keepAlive then box else box + [CloseIt]
  {
    hide Ok;
  }

  lemma HandlesGood(s: Session, w: nat)
    requires Inv(s) && Can(s, Handle(w)) && AllKeepAlive(MessagesOf(s.total))
    ensures s.ctx.phase == Done && s.ctx.flags.keepAlive
  {
    HolderIs(s, w);
    hide MessagesOf, Rest, NoStall, Ok;
    HandledIsNext(s, w);
  }

  lemma HandleReplies(s: Session, w: nat)
    requires Inv(s) && Can(s, Handle(w)) && RepliesOk(s)
    ensures Ok(Do(s, Handle(w)).ctx) && RepliesOk(Do(s, Handle(w)))
  {
    StepContext(s, Handle(w));
    if AllKeepAlive(MessagesOf(s.total)) {
      HandlesGood(s, w);
    }
    HandleBox(s, w);
    ResponsePushed(s.outbox, |s.handled|);
    ClosePushed(s.outbox + [Response(|s.handled|)]);
    hide Do, Inv, MessagesOf, Ok, ClosesLast, Answered, UpTo, AllKeepAlive;
  }

  lemma ClearKeeps(s: Session, w: nat)
    requires Inv(s) && Can(s, Clear(w)) && RepliesOk(s)
    ensures Ok(Do(s, Clear(w)).ctx) && RepliesOk(Do(s, Clear(w)))
  {
    StepContext(s, Clear(w));
    if AllKeepAlive(MessagesOf(s.total)) {
      HolderIs(s, w);
      assert s.ctx.phase == Done;
    }
  }

  lemma DoReplies(s: Session, e: Event)
    requires Inv(s) && Can(s, e) && RepliesOk(s)
    ensures Ok(Do(s, e).ctx) && RepliesOk(Do(s, e))
  {
    StepContext(s, e);
    if e.Analyse? {
      AnalyseReplies(s, e.w);
    } else if e.Handle? {
      HandleReplies(s, e.w);
    } else if e.Clear? {
      ClearKeeps(s, e.w);
    } else {
      assert Ok(s.ctx);
      hide Do, MessagesOf, Ok, Inv;
      NoReply(s, e);
      if AllKeepAlive(MessagesOf(Do(s, e).total)) {
        TotalPrefix(s.total, Do(s, e).total);
      }
    }
  }

  lemma TotalPrefix(t: seq<byte>, u: seq<byte>)
    requires t <= u && AllKeepAlive(MessagesOf(u))
    ensures AllKeepAlive(MessagesOf(t))
  {
    assert u == t + u[|t|..];
    KeepAlivePrefix(t, u[|t|..]);
  }

  lemma {:induction false} RunReplies(s: Session, events: seq<Event>, s': Session)
    requires Inv(s) && RepliesOk(s) && Reaches(s, events, s')
    ensures RepliesOk(s')
    decreases |events|
  {
    hide RepliesOk, LockOk, NoStall, Conserved, MessagesOf, Do, Can;
    if events != [] {
      StepInv(s, events[0]);
      DoReplies(s, events[0]);
      RunReplies(Do(s, events[0]), events[1..], s');
    }
  }

  lemma NoReplies(limit: nat, workers: set<nat>)
    ensures Inv(Initial(limit, workers)) && RepliesOk(Initial(limit, workers))
  {
    hide MessagesOf;
    InitialInv(limit, workers);
    assert UpTo(0) == [];
  }

  /** In no run on the stream `t` a response is pushed behind a close. */
  ghost predicate ClosesLastAlways(t: seq<byte>, limit: nat, workers: set<nat>) {
    forall events, s :: Reaches(Initial(limit, workers), events, s) && s.total == t ==> ClosesLast(s.outbox)
  }

  /** No run pushes a response behind a close exactly if every message of the stream keeps the connection alive. */
  lemma ClosesLastIff(t: seq<byte>, limit: nat, workers: set<nat>)
    requires workers != {} && |t| <= limit
    ensures ClosesLastAlways(t, limit, workers) <==> AllKeepAlive(MessagesOf(t))
  {
    hide MessagesOf, Reaches, Inv, AllKeepAlive;
    if AllKeepAlive(MessagesOf(t)) {
      forall events, s | Reaches(Initial(limit, workers), events, s) && s.total == t
        ensures ClosesLast(s.outbox)
      {
        NoReplies(limit, workers);
        RunReplies(Initial(limit, workers), events, s);
      }
    } else {
      var events, s := O.HandledTwice(t, limit, workers);
      assert !ClosesLast(s.outbox);
    }
  }

  /** A session over the pool: replies are pushed to the queues one by one, in the order in which the lock holders make
      them, and anything else may happen in between. */
  datatype System = System(s: Session, p: Q.Pool, posted: nat)

  datatype Move = OfSession(e: Event) | OfPool(q: Q.Event) | Post

  function KindOf(reply: Reply): nat {
    if reply.Response? then Q.SEND else Q.CLOSE
  }

  /** Nobody else sends to this socket or closes it through the queues. */
  predicate Foreign(e: Q.Event, id: Q.Id) {
    !(e.Push? && e.id == id && (e.kind == Q.SEND || e.kind == Q.CLOSE))
  }

  predicate CanMove(y: System, m: Move, id: Q.Id) {
    match m
    case OfSession(e) => Ok(y.s.ctx) && Can(y.s, e)
    case OfPool(e) => Q.Can(y.p, e) && Foreign(e, id)
    case Post => y.posted < |y.s.outbox| && Q.Shaped(y.p)
  }

  function DoMove(y: System, m: Move, id: Q.Id): System
    requires CanMove(y, m, id)
  {
    match m
    case OfSession(e) => y.(s := Do(y.s, e))
    case OfPool(e) => y.(p := Q.Do(y.p, e))
    case Post => y.(p := Q.Do(y.p, Q.Push(KindOf(y.s.outbox[y.posted]), id)), posted := y.posted + 1)
  }

  /** The positions of the sends and closes of one socket among all requests. */
  function Own(rs: seq<Q.Request>, id: Q.Id): seq<nat> {
    if rs == [] then []
    else
      var n := |rs| - 1;
      Own(rs[..n], id) + (if rs[n].id == id && (rs[n].kind == Q.SEND || rs[n].kind == Q.CLOSE) then [n] else [])
  }

  lemma OwnSnoc(rs: seq<Q.Request>, r: Q.Request, id: Q.Id)
    ensures Own(rs + [r], id)
         == Own(rs, id) + (if r.id == id && (r.kind == Q.SEND || r.kind == Q.CLOSE) then [|rs|] else [])
  {
    assert (rs + [r])[..|rs|] == rs;
  }

  lemma {:induction false} OwnIncrease(rs: seq<Q.Request>, id: Q.Id)
    ensures forall i :: 0 <= i < |Own(rs, id)| ==> Own(rs, id)[i] < |rs|
    ensures forall i, j :: 0 <= i < j < |Own(rs, id)| ==> Own(rs, id)[i] < Own(rs, id)[j]
  {
    if rs != [] {
      OwnIncrease(rs[..|rs| - 1], id);
    }
  }

  /** The requests of the socket are the replies posted so far, one to one and in order. */
  predicate Mirrors(rs: seq<Q.Request>, box: seq<Reply>, posted: nat, id: Q.Id) {
    && |Own(rs, id)| == posted <= |box|
    && forall i :: 0 <= i < posted ==>
      Own(rs, id)[i] < |rs| && rs[Own(rs, id)[i]] == Q.Request(KindOf(box[i]), id, true)
  }

  ghost predicate SystemOk(y: System, id: Q.Id) {
    && Inv(y.s) && RepliesOk(y.s) && Q.Inv(y.p) && id in y.p.started
    && Mirrors(y.p.pushed, y.s.outbox, y.posted, id)
  }

  lemma OutboxGrows(s: Session, e: Event)
    requires Ok(s.ctx) && Can(s, e)
    ensures s.outbox <= Do(s, e).outbox
  {
  }

  lemma MirrorsMore(rs: seq<Q.Request>, box: seq<Reply>, box': seq<Reply>, posted: nat, id: Q.Id)
    requires Mirrors(rs, box, posted, id) && box <= box'
    ensures Mirrors(rs, box', posted, id)
  {
  }

  lemma MirrorsPost(rs: seq<Q.Request>, box: seq<Reply>, posted: nat, id: Q.Id)
    requires Mirrors(rs, box, posted, id) && posted < |box|
    ensures Mirrors(rs + [Q.Request(KindOf(box[posted]), id, true)], box, posted + 1, id)
  {
    OwnSnoc(rs, Q.Request(KindOf(box[posted]), id, true), id);
  }

  lemma MirrorsForeign(rs: seq<Q.Request>, r: Q.Request, box: seq<Reply>, posted: nat, id: Q.Id)
    requires Mirrors(rs, box, posted, id) && !(r.id == id && (r.kind == Q.SEND || r.kind == Q.CLOSE))
    ensures Mirrors(rs + [r], box, posted, id)
  {
    OwnSnoc(rs, r, id);
    assert Own(rs, id) + [] == Own(rs, id);
  }

  lemma PoolKeeps(p: Q.Pool, e: Q.Event)
    requires Q.Can(p, e)
    ensures p.started <= Q.Do(p, e).started
    ensures Q.Do(p, e).pushed
         == if e.Push? then p.pushed + [Q.Request(e.kind, e.id, e.id in p.started)] else p.pushed
  {
  }

  lemma MoveOk(y: System, m: Move, id: Q.Id)
    requires SystemOk(y, id) && CanMove(y, m, id)
    ensures SystemOk(DoMove(y, m, id), id)
  {
    hide Inv, RepliesOk, Q.Inv, Mirrors, Own, Do, Can, Q.Do, Q.Can;
    match m
    case OfSession(e) =>
      StepInv(y.s, e);
      DoReplies(y.s, e);
      OutboxGrows(y.s, e);
      MirrorsMore(y.p.pushed, y.s.outbox, Do(y.s, e).outbox, y.posted, id);
    case OfPool(e) =>
      Q.DoInv(y.p, e);
      PoolKeeps(y.p, e);
      if e.Push? {
        MirrorsForeign(y.p.pushed, Q.Request(e.kind, e.id, e.id in y.p.started), y.s.outbox, y.posted, id);
      }
    case Post =>
      var e := Q.Push(KindOf(y.s.outbox[y.posted]), id);
      CanPush(y.p, KindOf(y.s.outbox[y.posted]), id);
      Q.DoInv(y.p, e);
      PoolKeeps(y.p, e);
      MirrorsPost(y.p.pushed, y.s.outbox, y.posted, id);
  }

  lemma CanPush(p: Q.Pool, kind: nat, id: Q.Id)
    requires Q.Shaped(p) && (kind == Q.SEND || kind == Q.CLOSE)
    ensures Q.Can(p, Q.Push(kind, id))
  {
  }

  predicate Moves(y: System, moves: seq<Move>, z: System, id: Q.Id)
    decreases |moves|
  {
    if moves == [] then z == y
    else CanMove(y, moves[0], id) && Moves(DoMove(y, moves[0], id), moves[1..], z, id)
  }

  lemma {:induction false} MovesOk(y: System, moves: seq<Move>, z: System, id: Q.Id)
    requires SystemOk(y, id) && Moves(y, moves, z, id)
    ensures SystemOk(z, id)
    decreases |moves|
  {
    hide SystemOk, CanMove, DoMove;
    if moves != [] {
      MoveOk(y, moves[0], id);
      MovesOk(DoMove(y, moves[0], id), moves[1..], z, id);
    }
  }

  /** A session that begins on a pool which has started its socket and has no request for it yet. */
  ghost predicate Begins(y: System, id: Q.Id) {
    && (exists limit, workers :: y.s == Initial(limit, workers))
    && (exists events :: Q.Reaches(Q.Initial(), events, y.p))
    && id in y.p.started && Own(y.p.pushed, id) == [] && y.posted == 0
  }

  lemma BeginsOk(y: System, id: Q.Id)
    requires Begins(y, id)
    ensures SystemOk(y, id)
  {
    hide Q.Inv, Q.Reaches, Own;
    var limit, workers :| y.s == Initial(limit, workers);
    InitialInv(limit, workers);
    var events :| Q.Reaches(Q.Initial(), events, y.p);
    Q.InitialInv();
    Q.ReachesInv(Q.Initial(), events, y.p);
    assert UpTo(0) == [];
  }

  /** The ith reply has gone through the queues: a response to the write path, or to nobody if the socket was gone. */
  predicate Processed(y: System, id: Q.Id, i: nat)
    requires Q.Shaped(y.p) && i < |Own(y.p.pushed, id)| && i < |y.s.outbox|
  {
    Own(y.p.pushed, id)[i] in y.p.done[KindOf(y.s.outbox[i])]
  }

  lemma EarlierSends(p: Q.Pool, n: nat, m: nat)
    requires Q.Inv(p) && n < m < |p.pushed| && p.pushed[n].kind == p.pushed[m].kind == Q.SEND && m in p.done[Q.SEND]
    ensures n in p.done[Q.SEND]
  {
    var all := Q.Positions(p.pushed, Q.SEND);
    Q.PositionsAre(p.pushed, Q.SEND);
    Q.PositionsIncrease(p.pushed, Q.SEND);
    assert n in all && m in all;
    var i :| 0 <= i < |all| && all[i] == n;
    var j :| 0 <= j < |p.done[Q.SEND]| && p.done[Q.SEND][j] == m;
    assert all[j] == m;
    assert i < j;
    assert p.done[Q.SEND][i] == all[i];
  }

  /** Responses reach the write path in stream order: in every run of a session, its workers and the pool, the ith
      response answers the ith request handled; when a response has been processed all earlier ones have, and each of
      them was handed to the write path if the socket is still running. */
  lemma ResponsesInOrder(y: System, moves: seq<Move>, z: System, id: Q.Id, i: nat, j: nat)
    requires Begins(y, id) && Moves(y, moves, z, id)
    requires i < j < z.posted
    ensures Q.Shaped(z.p) && z.posted == |Own(z.p.pushed, id)| <= |z.s.outbox|
    ensures Answered(z.s.outbox) == UpTo(|z.s.handled|)
    ensures z.s.outbox[i].Response? && z.s.outbox[j].Response? && Processed(z, id, j) ==> Processed(z, id, i)
    ensures z.s.outbox[i].Response? && Processed(z, id, i) && id in z.p.mapped ==> Own(z.p.pushed, id)[i] in z.p.handed
  {
    hide Moves, Inv;
    BeginsOk(y, id);
    MovesOk(y, moves, z, id);
    var own := Own(z.p.pushed, id);
    OwnIncrease(z.p.pushed, id);
    if z.s.outbox[i].Response? && z.s.outbox[j].Response? && Processed(z, id, j) {
      EarlierSends(z.p, own[i], own[j]);
    }
  }

  /** The close follows the last response: when the close that a session pushed is processed, every response that it
      pushed before has been processed, and was handed to the write path if the socket is still running; and on a
      keep-alive stream no response is pushed behind a close. */
  lemma CloseFollowsResponses(y: System, moves: seq<Move>, z: System, id: Q.Id, i: nat, j: nat, keep: bool)
    requires Begins(y, id) && Moves(y, moves, z, id)
    requires i < j < z.posted && Q.Can(z.p, Q.Process(Q.CLOSE, keep))
    ensures z.posted == |Own(z.p.pushed, id)| <= |z.s.outbox|
    ensures z.s.outbox[i].Response? && z.p.batch[Q.CLOSE][0] == Own(z.p.pushed, id)[j] ==>
      Processed(z, id, i) && (id in z.p.mapped ==> Own(z.p.pushed, id)[i] in z.p.handed)
    ensures AllKeepAlive(MessagesOf(z.s.total)) && z.s.outbox[i].CloseIt? ==> z.s.outbox[j].CloseIt?
  {
    hide Moves, Inv;
    BeginsOk(y, id);
    MovesOk(y, moves, z, id);
    var own := Own(z.p.pushed, id);
    OwnIncrease(z.p.pushed, id);
    if z.s.outbox[i].Response? && z.p.batch[Q.CLOSE][0] == own[j] {
      Q.EarlierIsDone(z.p, Q.CLOSE, keep, Q.SEND, own[i]);
    }
  }
}
