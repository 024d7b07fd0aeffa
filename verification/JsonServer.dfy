/** CjsonTask::run on one context, with no packet arriving while it runs. */
module JsonServers {
  import opened Bytes
  import opened RecvBuffers
  import opened JsonContexts
  import opened JsonParser
  import S = JsonSessions
  import E = JsonEnds

  /** `handled` and then what `p` delivers is what `q` delivers, whatever arrives behind their bytes. */
  ghost predicate Continues(q: Parser, handled: seq<seq<byte>>, p: Parser) {
    && Ok(q) && Ok(p)
    && forall x :: handled + Pending(Append(p, x)) == Pending(Append(q, x))
  }

  /** The context behind merge. */
  function Filled(p: Parser, r: Recv, limit: nat): Parser {
    p.(buf := Merged(r, limit).content)
  }

  lemma FilledOk(p: Parser, r: Recv, limit: nat)
    requires Ok(p) && p.buf == r.content
    ensures Ok(Filled(p, r, limit)) && Continues(Filled(p, r, limit), [], Filled(p, r, limit))
    ensures |Filled(p, r, limit).buf| <= |p.buf| + |Payload(r.queued)|
    ensures r.queued == [] ==> Filled(p, r, limit) == p && Payload(r.queued) == []
    ensures Merged(r, limit).queued == []
  {
    assert r.content + [] == r.content;
    FilledOkay(Filled(p, r, limit));
  }

  lemma FilledOkay(p: Parser)
    requires Ok(p)
    ensures Continues(p, [], p)
  {
    forall x
      ensures [] + Pending(Append(p, x)) == Pending(Append(p, x))
    {
    }
  }

  /** What one round leaves of the context `m`. */
  function Next(m: Parser): Parser
    requires Ok(m)
  {
    var r := Run(m);
    if r.phase == Done then Restarted(r) else r
  }

  function Found(m: Parser): seq<seq<byte>>
    requires Ok(m)
  {
    var r := Run(m);
    if r.phase == Done then [Text(r)] else []
  }

  lemma NextContinues(q: Parser, handled: seq<seq<byte>>, m: Parser)
    requires Continues(q, handled, m)
    ensures Continues(q, handled + Found(m), Next(m))
  {
    hide Run, MessagesOf, Pending, Ok, Append;
    forall x
      ensures Ok(Append(Next(m), x)) && Ok(Append(q, x)) && Ok(Next(m))
      ensures handled + Found(m) + Pending(Append(Next(m), x)) == Pending(Append(q, x))
    {
      AppendOk(q, x);
      PendingRunAppend(m, x);
      var r := Run(m);
      if r.phase == Done {
        PendingDone(r, x);
        PendingRestarted(r, x);
        RestartedOk(r);
        Assoc(handled, [Text(r)], Pending(Append(Restarted(r), x)));
      } else {
        assert handled + [] == handled;
      }
    }
    NextOk(m);
  }

  lemma AppendOk(p: Parser, x: seq<byte>)
    requires Ok(p)
    ensures Ok(Append(p, x))
  {
  }

  lemma RestartedOk(p: Parser)
    requires Ok(p)
    ensures Ok(Restarted(p))
  {
  }

  lemma NextOk(m: Parser)
    requires Ok(m)
    ensures Ok(Next(m))
  {
  }

  lemma ClearContinues(q: Parser, handled: seq<seq<byte>>, p: Parser)
    requires Continues(q, handled, p) && p.phase != Done
    ensures Continues(q, handled, Cleared(p))
  {
    hide Pending;
    ClearIsTransparent(p, []);
    forall x
      ensures handled + Pending(Append(Cleared(p), x)) == Pending(Append(q, x))
    {
      ClearIsTransparent(p, x);
    }
  }

  /** Nothing is left once a round finds nothing. */
  lemma AllFound(q: Parser, handled: seq<seq<byte>>, p: Parser)
    requires Continues(q, handled, p) && !Enabled(p) && p.phase != Done
    ensures handled == Pending(q)
  {
    hide Run, MessagesOf, Pending;
    S.NothingPending(p);
    assert q.buf + [] == q.buf;
    assert handled + Pending(Append(p, [])) == Pending(Append(q, []));
  }

  /** What is framed on behind a round ends as before it. */
  lemma NextEnds(m: Parser)
    requires Ok(m)
    ensures Ok(Next(m)) && E.EndFrom(Next(m)) == E.EndFrom(m)
  {
    hide Run, E.EndOf, E.EndFrom;
    NextOk(m);
    assert Append(m, []) == m && Append(Next(m), []) == Next(m) && Append(Run(m), []) == Run(m);
    E.EndRunAppend(m, []);
    if Run(m).phase == Done {
      E.EndDone(Run(m), []);
      E.EndRestarted(Run(m), []);
    }
  }

  /** A framer that waits or is bad ends where it is. */
  lemma StoppedEnds(p: Parser)
    requires Ok(p) && !Enabled(p) && p.phase != Done
    ensures E.EndFrom(p) == p.phase
  {
  }

  /** One round of the loop. */
  method Round(ctx: JsonContext) returns (again: bool, closed: bool, found: seq<seq<byte>>)
    requires ctx.Valid() && ctx.recv.Ready()
    modifies ctx, ctx.recv, ctx.recv.buffer, ctx.recv.buffer.data
    ensures ctx.Valid() && ctx.recv.Ready()
    ensures ctx.recv.buffer.data == old(ctx.recv.buffer.data) || fresh(ctx.recv.buffer.data)
    ensures ctx.recv.raws == [] && (closed <==> ctx.phase == Bad)
    ensures var m := old(Filled(ctx.Abs(), ctx.recv.State(), ctx.recv.Limit()));
      && Ok(m) && ctx.Abs() == Next(m) && found == Found(m) && (again <==> found != [])
  {
    hide Run, Ok, Merged, Payload;
    ghost var p, r, limit := ctx.Abs(), ctx.recv.State(), ctx.recv.Limit();
    FilledOk(p, r, limit);
    ctx.recv.Merge();
    assert ctx.Abs() == Filled(p, r, limit) && ctx.recv.raws == Merged(r, limit).queued;
    var finished := ctx.Analysis();
    found, again, closed := [], false, false;
    if finished {
      var good, from, length := ctx.ReferenceContent();
      if good {
        found := [ctx.recv.buffer.data[from..from + length]];
        ctx.Restart();
        again := true;
      } else {
        closed := true;
      }
    }
  }

  lemma NextShrinks(m: Parser)
    requires Ok(m) && Found(m) != []
    ensures Next(m).buf == m.buf && m.index <= Next(m).index <= |m.buf|
    ensures m.phase != Done ==> m.index < Next(m).index
    ensures Next(m).phase == Start
  {
    RunIndex(m);
  }

  lemma {:induction false} RunIndex(p: Parser)
    requires Ok(p)
    ensures p.index <= Run(p).index && (p.phase != Done && Run(p).phase == Done ==> p.index < Run(p).index)
    decreases |p.buf| - p.index, if p.phase == Bad then 0 else 1
  {
    hide Step;
    if Enabled(p) {
      StepOk(p);
      RunIndex(Step(p));
    }
  }

  lemma NextStops(m: Parser)
    requires Ok(m) && Found(m) == []
    ensures Ok(Next(m)) && !Enabled(Next(m)) && Next(m).phase != Done
  {
  }

  /** The loop with its clear at the end: a task deals with exactly the messages that its context holds once the
      queued bytes are merged, in order, and closes the connection exactly if the framer goes bad on the bytes behind
      them; what is framed after it, whatever arrives, is what would have been framed
      without the restarts and the compaction. */
  method RunTask(ctx: JsonContext) returns (closed: bool, handled: seq<seq<byte>>)
    requires ctx.Valid() && ctx.recv.Ready()
    modifies ctx, ctx.recv, ctx.recv.buffer, ctx.recv.buffer.data
    ensures ctx.Valid() && (closed <==> ctx.phase == Bad) && ctx.phase != Done
    ensures handled != [] && !closed ==> ctx.start == 0
    ensures var m := old(Filled(ctx.Abs(), ctx.recv.State(), ctx.recv.Limit()));
      && Ok(m) && handled == Pending(m) && Continues(m, handled, ctx.Abs()) && (closed <==> E.EndFrom(m) == Bad)
  {
    hide Run, Ok, Payload, Merged, Next, Found, Pending, Continues, Enabled, E.EndFrom;
    ghost var m := Filled(ctx.Abs(), ctx.recv.State(), ctx.recv.Limit());
    FilledOk(ctx.Abs(), ctx.recv.State(), ctx.recv.Limit());
    NextContinues(m, [], m);
    NextEnds(m);
    var needClear, again;
    again, closed, handled := Round(ctx);
    needClear := again;
    assert [] + handled == handled;
    RoundEnds(m, handled, again);
    while again
      invariant ctx.Valid() && ctx.recv.Ready()
      invariant (ctx.recv.buffer.data == old(ctx.recv.buffer.data) || fresh(ctx.recv.buffer.data))
      invariant ctx.recv.raws == [] && (closed <==> ctx.phase == Bad)
      invariant Continues(m, handled, ctx.Abs()) && ctx.phase != Done
      invariant Ok(ctx.Abs()) && E.EndFrom(ctx.Abs()) == E.EndFrom(m)
      invariant !again ==> !Enabled(ctx.Abs())
      invariant handled != [] ==> needClear
      decreases again, ctx.recv.now - ctx.index
    {
      ghost var p := ctx.Abs();
      FilledOk(p, ctx.recv.State(), ctx.recv.Limit());
      NextContinues(m, handled, p);
      NextEnds(p);
      var found;
      again, closed, found := Round(ctx);
      RoundEnds(p, found, again);
      handled := handled + found;
    }
    AllFound(m, handled, ctx.Abs());
    StoppedEnds(ctx.Abs());
    if needClear {
      ClearContinues(m, handled, ctx.Abs());
      ClearFreesSpace(ctx.Abs());
      ctx.Clear();
    }
  }

  lemma RoundEnds(m: Parser, found: seq<seq<byte>>, again: bool)
    requires Ok(m) && found == Found(m) && (again <==> found != [])
    ensures Next(m).buf == m.buf && Next(m).index <= |m.buf| && Next(m).phase != Done
    ensures again && m.phase != Done ==> m.index < Next(m).index
    ensures !again ==> !Enabled(Next(m))
  {
    if again {
      NextShrinks(m);
    } else {
      NextStops(m);
    }
  }

  /** The merge of a session, which keeps the queued bytes without their blocks, is the merge of the receive buffer. */
  lemma SessionMergeIsMerge(s: S.Session, r: Recv)
    requires Ok(s.ctx) && s.ctx.buf == r.content && s.raw == Payload(r.queued) && s.lost == r.overflow
    requires forall p :: p in r.queued ==> p.bytes != []
    ensures var m := S.Do(s, S.Merge);
      m.ctx.buf == Merged(r, s.limit).content && m.lost == Merged(r, s.limit).overflow && m.raw == []
  {
    if r.queued != [] {
      assert r.queued[|r.queued| - 1] in r.queued;
    }
    assert r.content + [] == r.content;
  }
}
