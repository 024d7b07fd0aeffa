/** ChttpTask::run on one context, with no packet arriving while it runs; HttpWorkers has the interleavings. */
module HttpServers {
  import opened Bytes
  import opened RecvBuffers
  import opened HttpContexts
  import P = HttpParser
  import B = HttpBoundary
  import L = HttpPipeline
  import W = HttpWorkers
  import E = HttpEnds

  /** The context as its next `analysis` takes it when merge has put `x` behind the received bytes. */
  function Fed(p: P.Parser, x: seq<byte>): P.Parser {
    if p.phase == P.Uninit then P.Fresh(p.buf + x) else B.Append(p, x)
  }

  lemma FedOk(p: P.Parser, x: seq<byte>)
    requires Good(p) && p.phase != P.Bad
    ensures P.Ok(Fed(p, x))
  {
    B.FreshOk(p.buf + x);
  }

  /** The messages that a task finds in the context `p` whose receive buffer is `r`: none when the framer is bad or
      the receive buffer has overflowed or will. */
  function Coming(p: P.Parser, r: Recv, limit: nat): seq<P.Parser>
    requires Good(p)
  {
    if p.phase == P.Bad || Merged(r, limit).overflow then []
    else
      FedOk(p, Payload(r.queued));
      L.Pending(Fed(p, Payload(r.queued)))
  }

  /** The context behind merge. */
  function Filled(p: P.Parser, r: Recv, limit: nat): P.Parser {
    p.(buf := Merged(r, limit).content)
  }

  lemma FilledGood(p: P.Parser, r: Recv, limit: nat)
    requires Good(p) && p.buf == r.content
    ensures Good(Filled(p, r, limit))
  {
    assert Merged(r, limit).content == r.content || Merged(r, limit).content == r.content + Payload(r.queued);
  }

  lemma FilledIsFed(p: P.Parser, r: Recv, limit: nat)
    requires Good(p) && p.buf == r.content && p.phase != P.Bad && !Merged(r, limit).overflow
    ensures var x := Payload(r.queued);
      && P.Ok(Fed(p, x)) && |Fed(p, x).buf| == |r.content| + |x|
      && Good(Filled(p, r, limit)) && Analysed(Filled(p, r, limit), false) == P.Run(Fed(p, x))
  {
    FilledGood(p, r, limit);
    FedOk(p, Payload(r.queued));
    assert r.queued == [] ==> r.content + Payload(r.queued) == r.content;
  }

  /** What merge and then `analysis` leave. */
  lemma AnalysedNext(p: P.Parser, r: Recv, limit: nat)
    requires Good(p) && p.buf == r.content
    ensures Good(Filled(p, r, limit))
    ensures var q := Analysed(Filled(p, r, limit), Merged(r, limit).overflow);
      if q.phase == P.Done then
        && P.Ok(q) && 0 < q.index <= |q.buf| == |r.content| + |Payload(r.queued)|
        && !Merged(r, limit).overflow
        && Coming(p, r, limit)
          == [L.Extract(q)] + (if q.flags.keepAlive then L.MessagesOf(q.buf[q.index..]) else [])
      else
        Coming(p, r, limit) == []
  {
    hide P.Ok, P.Run, Terminated, L.MessagesOf, Good, Merged, Payload;
    FilledGood(p, r, limit);
    if p.phase != P.Bad && !Merged(r, limit).overflow {
      FilledIsFed(p, r, limit);
      var q := P.Run(Fed(p, Payload(r.queued)));
      if q.phase == P.Done {
        DoneFacts(q);
      }
    }
  }

  lemma DoneFacts(q: P.Parser)
    requires P.Ok(q) && q.phase == P.Done
    ensures 0 < q.index <= |q.buf|
  {
  }

  lemma MergedQueue(r: Recv, limit: nat)
    ensures Merged(r, limit).queued == []
  {
  }

  /** The framer has gone bad, or has come to a message that does not keep the connection alive. */
  predicate Stopped(p: P.Parser) {
    p.phase == P.Bad || p.phase == P.Done
  }

  /** The task will close the connection: the receive buffer has overflowed or will, the framer is bad already, or it
      stops on what the context holds once the queued bytes are merged. */
  predicate Closes(p: P.Parser, r: Recv, limit: nat)
    requires Good(p)
  {
    if p.phase == P.Bad || Merged(r, limit).overflow then true
    else
      FedOk(p, Payload(r.queued));
      Stopped(E.EndFrom(Fed(p, Payload(r.queued))))
  }

  lemma ClosesNext(p: P.Parser, r: Recv, limit: nat)
    requires Good(p) && p.buf == r.content
    ensures Good(Filled(p, r, limit))
    ensures var q := Analysed(Filled(p, r, limit), Merged(r, limit).overflow);
      if q.phase == P.Done && q.flags.keepAlive then
        q.index <= |q.buf| && (Closes(p, r, limit) <==> Stopped(E.EndOf(q.buf[q.index..])))
      else Closes(p, r, limit) <==> Stopped(q)
  {
    hide P.Ok, P.Run, Terminated, E.EndOf, Good, Merged, Payload;
    FilledGood(p, r, limit);
    if p.phase != P.Bad && !Merged(r, limit).overflow {
      FilledIsFed(p, r, limit);
      var q := P.Run(Fed(p, Payload(r.queued)));
      if q.phase == P.Done {
        DoneFacts(q);
      }
    }
  }

  /** `k` responses, from the nth on. */
  function Answers(n: nat, k: nat): seq<W.Reply> {
    seq(k, i requires 0 <= i < k => W.Response(n + i))
  }

  lemma MoreAnswers(n: nat, j: nat, k: nat)
    ensures Answers(n, j) + Answers(n + j, k) == Answers(n, j + k)
  {
  }

  /** One round of the loop. `handled` is the request that was dealt with, if one was complete. */
  method Round(ctx: HttpContext, n: nat)
    returns (again: bool, closed: bool, replies: seq<W.Reply>, ghost handled: seq<P.Parser>)
    requires ctx.Valid() && ctx.recv.Ready()
    modifies ctx, ctx.recv, ctx.recv.buffer, ctx.recv.buffer.data
    ensures ctx.Valid() && ctx.recv.Ready()
    ensures ctx.recv.buffer.data == old(ctx.recv.buffer.data) || fresh(ctx.recv.buffer.data)
    ensures closed <==> ctx.phase == P.Bad || ctx.phase == P.Done
    ensures replies == Answers(n, |handled|) + (if closed then [W.CloseIt] else []) && (again ==> |handled| == 1)
    ensures old(Closes(ctx.Abs(), ctx.recv.State(), ctx.recv.Limit()))
      <==> if again then Stopped(E.EndOf(ctx.recv.Received())) else closed
    ensures old(Coming(ctx.Abs(), ctx.recv.State(), ctx.recv.Limit()))
         == handled + (if again then L.MessagesOf(ctx.recv.Received()) else [])
    ensures again ==>
      && !closed && ctx.Abs() == P.Fresh(ctx.recv.Received()) && ctx.recv.raws == [] && !ctx.recv.overflow
      && |ctx.recv.Received()| < |old(ctx.recv.Received())| + |Payload(old(ctx.recv.raws))|
  {
    hide P.Ok, P.Run, Good, Analysed, L.MessagesOf, Coming, Closes, E.EndOf, Payload, Merged;
    ghost var p, r, limit := ctx.Abs(), ctx.recv.State(), ctx.recv.Limit();
    AnalysedNext(p, r, limit);
    ClosesNext(p, r, limit);
    ctx.recv.Merge();
    assert ctx.Abs() == Filled(p, r, limit) && ctx.recv.raws == Merged(r, limit).queued;
    MergedQueue(r, limit);
    var finished := ctx.Analysis();
    assert ctx.recv.overflow == Merged(r, limit).overflow;
    handled, replies, again, closed := [], [], false, false;
    if finished {
      if ctx.phase == P.Done {
        handled := [L.Extract(ctx.Abs())];
        replies := [W.Response(n)];
        if !ctx.keepAlive {
          replies, closed := replies + [W.CloseIt], true;
          return;
        }
        var _ := ctx.Clear();
        again := true;
      } else {
        replies, closed := [W.CloseIt], true;
      }
    }
  }

  /** The loop: a task deals with exactly the messages that its context and the queued bytes hold, in order, pushes one
      response for each, counted from the nth request of the session on, and then a close exactly if the receive buffer
      overflows, the framer goes bad or the last message does not keep the connection alive. */
  method RunTask(ctx: HttpContext, n: nat)
    returns (closed: bool, replies: seq<W.Reply>, ghost handled: seq<P.Parser>)
    requires ctx.Valid() && ctx.recv.Ready()
    modifies ctx, ctx.recv, ctx.recv.buffer, ctx.recv.buffer.data
    ensures ctx.Valid()
    ensures closed <==> ctx.phase == P.Bad || ctx.phase == P.Done
    ensures closed <==> old(Closes(ctx.Abs(), ctx.recv.State(), ctx.recv.Limit()))
    ensures replies == Answers(n, |handled|) + (if closed then [W.CloseIt] else [])
    ensures handled == old(Coming(ctx.Abs(), ctx.recv.State(), ctx.recv.Limit()))
  {
    hide Good, Coming, Closes, E.EndOf, L.MessagesOf, Payload, Answers, Stopped;
    ghost var goal := Coming(ctx.Abs(), ctx.recv.State(), ctx.recv.Limit());
    ghost var ends := Closes(ctx.Abs(), ctx.recv.State(), ctx.recv.Limit());
    var again, answers;
    ghost var more;
    again, closed, replies, handled := Round(ctx, n);
    AnswersLength(n, |handled|);
    while again
      invariant ctx.Valid() && ctx.recv.Ready()
      invariant (ctx.recv.buffer.data == old(ctx.recv.buffer.data) || fresh(ctx.recv.buffer.data))
      invariant goal == handled + (if again then L.MessagesOf(ctx.recv.Received()) else [])
      invariant ends <==> if again then Stopped(E.EndOf(ctx.recv.Received())) else closed
      invariant closed <==> ctx.phase == P.Bad || ctx.phase == P.Done
      invariant replies == Answers(n, |handled|) + (if closed then [W.CloseIt] else [])
      invariant again ==> !closed && |replies| == |handled|
      invariant again ==> ctx.Abs() == P.Fresh(ctx.recv.Received()) && ctx.recv.raws == [] && !ctx.recv.overflow
      decreases again, ctx.recv.now
    {
      ComingFresh(ctx.Abs(), ctx.recv.State(), ctx.recv.Limit());
      ghost var before := handled;
      again, closed, answers, more := Round(ctx, n + |replies|);
      handled := before + more;
      RepliesGrow(n, |before|, |more|, closed);
      replies := replies + answers;
      Assoc(before, more, if again then L.MessagesOf(ctx.recv.Received()) else []);
    }
  }

  lemma RepliesGrow(n: nat, j: nat, k: nat, closed: bool)
    ensures var last := if closed then [W.CloseIt] else [];
      && Answers(n, j) + (Answers(n + j, k) + last) == Answers(n, j + k) + last
      && |Answers(n, j)| == j && |Answers(n, j + k)| == j + k
  {
    MoreAnswers(n, j, k);
    Assoc(Answers(n, j), Answers(n + j, k), if closed then [W.CloseIt] else []);
  }

  lemma AnswersLength(n: nat, k: nat)
    ensures |Answers(n, k)| == k
  {
  }

  lemma ComingFresh(p: P.Parser, r: Recv, limit: nat)
    requires Good(p) && p == P.Fresh(r.content) && r.queued == [] && !r.overflow
    ensures Coming(p, r, limit) == L.MessagesOf(r.content)
    ensures Closes(p, r, limit) <==> Stopped(E.EndOf(r.content))
    ensures Payload(r.queued) == []
  {
    E.EndFresh(r.content);
    assert r.content + [] == r.content;
    L.PendingFresh(r.content);
  }

  /** The merge of a session, which keeps the queued bytes without their blocks, is the merge of the receive buffer. */
  lemma SessionMergeIsMerge(s: W.Session, r: Recv)
    requires s.ctx.buf == r.content && s.raw == Payload(r.queued) && s.overflow == r.overflow
    requires forall p :: p in r.queued ==> p.bytes != []
    ensures var m := W.Merged(s);
      m.ctx.buf == Merged(r, s.limit).content && m.overflow == Merged(r, s.limit).overflow && m.raw == []
  {
    QueuedBytes(r);
    assert r.content + [] == r.content;
  }

  lemma QueuedBytes(r: Recv)
    requires forall p :: p in r.queued ==> p.bytes != []
    ensures r.queued == [] <==> Payload(r.queued) == []
  {
    if r.queued != [] {
      assert r.queued[|r.queued| - 1] in r.queued;
    }
  }
}
