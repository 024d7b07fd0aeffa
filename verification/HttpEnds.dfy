/** How a session ends: on exactly which streams it closes its connection, whatever the workers do. */
module HttpEnds {
  import opened Bytes
  import opened HttpHeader
  import opened HttpParser
  import opened HttpBoundary
  import opened HttpPipeline
  import opened HttpWorkers
  import opened HttpGrammars
  import R = HttpReplies

  lemma DoneBounds(s: seq<byte>)
    ensures Ok(Fresh(s)) && |Run(Fresh(s)).buf| == |s|
    ensures Run(Fresh(s)).phase == Done ==> 0 < Run(Fresh(s)).index <= |s|
  {
    FreshOk(s);
  }

  /** The bytes behind the last message up to which the connection is kept alive. */
  function Behind(s: seq<byte>): seq<byte>
    decreases |s|
  {
    DoneBounds(s);
    var r := Run(Fresh(s));
    if r.phase == Done && r.flags.keepAlive then Behind(s[r.index..]) else s
  }

  /** The framer at the end of the stream. */
  function EndOf(s: seq<byte>): Parser {
    FreshOk(Behind(s));
    Run(Fresh(Behind(s)))
  }

  /** And from the middle of a message on. */
  function EndFrom(p: Parser): Parser
    requires Ok(p)
  {
    var r := Run(p);
    if r.phase == Done && r.flags.keepAlive then EndOf(r.buf[r.index..]) else r
  }

  lemma EndFresh(s: seq<byte>)
    ensures Ok(Fresh(s)) && EndFrom(Fresh(s)) == EndOf(s)
  {
    DoneBounds(s);
    RunTail(Fresh(s));
  }

  lemma EndRunAppend(p: Parser, x: seq<byte>)
    requires Ok(p)
    ensures Ok(Append(p, x)) && Ok(Append(Run(p), x))
    ensures EndFrom(Append(Run(p), x)) == EndFrom(Append(p, x))
  {
    RunAppend(p, x);
  }

  lemma EndDone(p: Parser, x: seq<byte>)
    requires Ok(p) && p.phase == Done
    ensures Ok(Append(p, x))
    ensures EndFrom(Append(p, x)) == if p.flags.keepAlive then EndOf(p.buf[p.index..] + x) else Append(p, x)
  {
    hide EndOf;
    PendingDone(p, x);
    assert (p.buf + x)[p.index..] == p.buf[p.index..] + x;
  }

  /** Where the bytes that have arrived, and `x` behind them, will still take the framer. */
  function RestEnd(s: Session, x: seq<byte>): Parser
    requires Ok(s.ctx)
  {
    if Stage(s) == Clearing then EndOf(s.ctx.buf[s.ctx.index..] + (s.raw + x))
    else
      AppendOk(s.ctx, s.raw + x);
      EndFrom(Append(s.ctx, s.raw + x))
  }

  /** Whatever arrives next, the framer ends as on everything received. */
  ghost predicate EndKept(s: Session)
    requires Ok(s.ctx)
  {
    forall x :: RestEnd(s, x) == EndOf(s.total + x)
  }

  predicate Last(p: Parser) {
    p.phase == Done && !p.flags.keepAlive
  }

  /** The stages of the loop on any stream: what the framer has come to, and whether the close has been pushed. */
  predicate StagesOk(s: Session)
    requires Ok(s.ctx)
  {
    && (Stage(s) == Handling ==> s.ctx.phase == Done)
    && (Stage(s) == Clearing ==> s.ctx.phase == Done && s.ctx.flags.keepAlive)
    && (Stage(s) == Unlocking ==> !Enabled(s.ctx) && (s.ctx.phase == Done ==> Last(s.ctx)))
    && (s.overflow ==> Stage(s) == Analysing || (s.ctx.phase == Bad && Stage(s) in {Unlocking, Merging}))
  }

  predicate ClosesOk(s: Session) {
    && (s.ctx.phase == Bad || (Last(s.ctx) && Stage(s) != Handling) ==> CloseIt in s.outbox)
    && (CloseIt in s.outbox ==> s.overflow || s.ctx.phase == Bad || Last(s.ctx))
  }

  ghost predicate EndInv(s: Session) {
    Ok(s.ctx) && LockOk(s) && NoStall(s) && StagesOk(s) && ClosesOk(s) && (!s.overflow ==> EndKept(s))
  }

  lemma InitialEnd(limit: nat, workers: set<nat>)
    ensures EndInv(Initial(limit, workers))
  {
    var s := Initial(limit, workers);
    FreshOk([]);
    forall x
      ensures RestEnd(s, x) == EndOf(s.total + x)
    {
      assert [] + x == x;
      assert Append(s.ctx, s.raw + x) == Fresh(x);
      EndFresh(x);
    }
  }

  lemma SameEnds(s: Session, s': Session)
    requires Ok(s.ctx) && Ok(s'.ctx) && EndKept(s) && s'.total == s.total
    requires forall x :: RestEnd(s', x) == RestEnd(s, x)
    ensures EndKept(s')
  {
    hide Ok, RestEnd, EndOf;
    forall x
      ensures RestEnd(s', x) == EndOf(s'.total + x)
    {
      assert RestEnd(s', x) == RestEnd(s, x);
      assert RestEnd(s, x) == EndOf(s.total + x);
    }
  }

  lemma ReceiveEnds(s: Session, b: seq<byte>)
    requires Ok(s.ctx) && Can(s, Receive(b)) && EndKept(s)
    ensures EndKept(Do(s, Receive(b)))
  {
    hide EndOf, EndFrom;
    var s' := Do(s, Receive(b));
    forall x
      ensures RestEnd(s', x) == EndOf(s'.total + x)
    {
      Assoc(s.total, b, x);
      Assoc(s.raw, b, x);
      assert RestEnd(s, b + x) == EndOf(s.total + (b + x));
    }
  }

  lemma OutsideEnd(s: Session, e: Event)
    requires EndInv(s) && Can(s, e) && (Outside(e) || e.Receive?)
    ensures EndInv(Do(s, e))
  {
    hide Ok, EndFrom, EndOf;
    var s' := Do(s, e);
    StepLock(s, e);
    StepNoStall(s, e);
    OutsideStages(s, e);
    if !s.overflow {
      if e.Receive? {
        ReceiveEnds(s, e.bytes);
      } else {
        SameEnds(s, s');
      }
    }
  }

  lemma OutsideStages(s: Session, e: Event)
    requires Ok(s.ctx) && LockOk(s) && Can(s, e) && (Outside(e) || e.Receive?) && StagesOk(s) && ClosesOk(s)
    ensures var s' := Do(s, e); StagesOk(s') && ClosesOk(s')
    ensures var s' := Do(s, e);
      s'.ctx == s.ctx && s'.outbox == s.outbox && s'.overflow == s.overflow
      && (Stage(s') == Stage(s) || (Stage(s) == Unlocking && Stage(s') == Merging))
      && (!e.Receive? ==> s'.raw == s.raw && s'.total == s.total)
  {
    hide Ok;
  }

  lemma MergeStages(s: Session, w: nat)
    requires Ok(s.ctx) && LockOk(s) && StagesOk(s) && ClosesOk(s) && Can(s, Merge(w)) && Stage(s) == Merging
    ensures var s' := Do(s, Merge(w));
      && Ok(s'.ctx) && StagesOk(s') && ClosesOk(s') && s'.total == s.total && s'.raw == [] && Stage(s') == Analysing
      && (!s'.overflow ==> !s.overflow && (s'.ctx == Append(s.ctx, s.raw) || (s.raw == [] && s'.ctx == s.ctx)))
  {
    StepContext(s, Merge(w));
    hide Ok, Run;
  }

  lemma MergedEnds(s: Session, s': Session, x: seq<byte>)
    requires Ok(s.ctx) && Ok(s'.ctx) && s'.raw == [] && Stage(s) == Merging && Stage(s') == Analysing
    requires s'.ctx == Append(s.ctx, s.raw) || (s.raw == [] && s'.ctx == s.ctx)
    ensures RestEnd(s', x) == RestEnd(s, x)
  {
    hide Ok, EndFrom, EndOf;
    AppendAppend(s.ctx, s.raw, x);
    assert [] + x == x;
  }

  lemma MergeEnd(s: Session, w: nat)
    requires EndInv(s) && Can(s, Merge(w))
    ensures EndInv(Do(s, Merge(w)))
  {
    var s' := Do(s, Merge(w));
    StepLock(s, Merge(w));
    StepNoStall(s, Merge(w));
    HolderIs(s, w);
    MergeStages(s, w);
    hide Ok, RestEnd, NoStall, StagesOk, ClosesOk, LockOk, Do;
    if !s'.overflow {
      forall x
        ensures RestEnd(s', x) == RestEnd(s, x)
      {
        MergedEnds(s, s', x);
      }
      SameEnds(s, s');
    }
  }

  lemma AnalyseEnd(s: Session, w: nat)
    requires EndInv(s) && Can(s, Analyse(w))
    ensures EndInv(Do(s, Analyse(w)))
  {
    var s' := Do(s, Analyse(w));
    StepContext(s, Analyse(w));
    StepLock(s, Analyse(w));
    StepNoStall(s, Analyse(w));
    HolderIs(s, w);
    AnalysedOk(s);
    AnalyseCloses(s, w);
    hide Ok, EndFrom, EndOf, NoStall, Run;
    if !s'.overflow {
      forall x
        ensures RestEnd(s', x) == RestEnd(s, x)
      {
        EndRunAppend(s.ctx, s.raw + x);
      }
      SameEnds(s, s');
    }
  }

  lemma FinishedStays(p: Parser)
    requires Ok(p) && (p.phase == Done || p.phase == Bad)
    ensures Run(p) == p
  {
  }

  lemma AnalyseCloses(s: Session, w: nat)
    requires Ok(s.ctx) && LockOk(s) && StagesOk(s) && ClosesOk(s) && Can(s, Analyse(w)) && Stage(s) == Analysing
    ensures Ok(Do(s, Analyse(w)).ctx) && StagesOk(Do(s, Analyse(w))) && ClosesOk(Do(s, Analyse(w)))
  {
    AnalysedOk(s);
    hide Run, Ok, Enabled;
    if s.ctx.phase == Done || s.ctx.phase == Bad {
      FinishedStays(s.ctx);
    }
  }

  lemma HandleEnd(s: Session, w: nat)
    requires EndInv(s) && Can(s, Handle(w))
    ensures EndInv(Do(s, Handle(w)))
  {
    var s' := Do(s, Handle(w));
    StepContext(s, Handle(w));
    StepLock(s, Handle(w));
    StepNoStall(s, Handle(w));
    HolderIs(s, w);
    hide Ok, EndFrom, EndOf, NoStall;
    forall x
      ensures RestEnd(s', x) == RestEnd(s, x)
    {
      EndDone(s.ctx, s.raw + x);
    }
    SameEnds(s, s');
  }

  lemma ClearEnd(s: Session, w: nat)
    requires EndInv(s) && Can(s, Clear(w))
    ensures EndInv(Do(s, Clear(w)))
  {
    var s' := Do(s, Clear(w));
    StepContext(s, Clear(w));
    StepLock(s, Clear(w));
    StepNoStall(s, Clear(w));
    HolderIs(s, w);
    DoneIndex(s.ctx);
    hide Ok, EndFrom, EndOf, NoStall;
    var tail := s.ctx.buf[s.ctx.index..];
    forall x
      ensures RestEnd(s', x) == RestEnd(s, x)
    {
      EndFresh(tail + (s.raw + x));
      assert Append(Fresh(tail), s.raw + x) == Fresh(tail + (s.raw + x));
    }
    SameEnds(s, s');
  }

  lemma DoEnd(s: Session, e: Event)
    requires EndInv(s) && Can(s, e)
    ensures EndInv(Do(s, e))
  {
    hide EndInv, Do;
    match e
    case Merge(w) => MergeEnd(s, w);
    case Analyse(w) => AnalyseEnd(s, w);
    case Handle(w) => HandleEnd(s, w);
    case Clear(w) => ClearEnd(s, w);
    case _ => OutsideEnd(s, e);
  }

  lemma {:induction false} RunEnd(s: Session, events: seq<Event>, s': Session)
    requires EndInv(s) && Reaches(s, events, s')
    ensures EndInv(s')
    decreases |events|
  {
    hide Ok, LockOk, NoStall, StagesOk, ClosesOk, EndKept, Do, Can;
    if events != [] {
      DoEnd(s, events[0]);
      RunEnd(Do(s, events[0]), events[1..], s');
    }
  }

  /** On every stream: once no bytes and no tasks are left and all workers are idle, the session has closed its
      connection exactly if the receive buffer has overflowed or the bytes behind the messages that keep it alive begin
      with a message that does not, or with what can be no message. */
  lemma ClosedIff(limit: nat, workers: set<nat>, events: seq<Event>, s: Session)
    requires Reaches(Initial(limit, workers), events, s) && Quiet(s)
    ensures CloseIt in s.outbox <==> s.overflow || !MessageOutcome(Behind(s.total)).Waits?
  {
    hide Reaches, MessageOutcome;
    InitialEnd(limit, workers);
    RunEnd(Initial(limit, workers), events, s);
    assert Stage(s) == Unlocking && s.raw == [];
    if !s.overflow {
      hide Ok, LockOk, NoStall, Run, Behind;
      QuietEnd(s);
      MessageVerdict(Behind(s.total));
    }
  }

  lemma QuietEnd(s: Session)
    requires Ok(s.ctx) && EndKept(s) && StagesOk(s) && Stage(s) == Unlocking && s.raw == []
    ensures s.ctx == EndOf(s.total)
  {
    hide EndOf;
    assert RestEnd(s, []) == EndOf(s.total + []);
    assert s.total + [] == s.total && Append(s.ctx, [] + []) == s.ctx;
  }

  /** The bytes that messages take. */
  function Taken(ms: seq<Parser>): nat {
    if ms == [] then 0 else |ms[0].buf| + Taken(ms[1..])
  }

  lemma OneBehind(s: seq<byte>)
    requires AllKeepAlive(MessagesOf(s))
    ensures Ok(Fresh(s))
    ensures var r := Run(Fresh(s));
      if r.phase == Done then
        && 0 < r.index <= |s| && |r.buf| == |s| && Behind(s) == Behind(s[r.index..])
        && MessagesOf(s) == [Extract(r)] + MessagesOf(s[r.index..]) && |Extract(r).buf| == r.index
      else MessagesOf(s) == [] && Behind(s) == s
  {
    DoneBounds(s);
    hide Ok, Run;
    if Run(Fresh(s)).phase == Done {
      assert MessagesOf(s)[0].flags.keepAlive;
    }
  }

  /** On keep-alive streams these are the bytes behind all messages, and they begin with no further one. */
  lemma {:induction false} BehindAll(s: seq<byte>)
    requires AllKeepAlive(MessagesOf(s))
    ensures Taken(MessagesOf(s)) <= |s| && Behind(s) == s[Taken(MessagesOf(s))..]
    ensures !MessageOutcome(Behind(s)).Ends?
    decreases |s|
  {
    hide MessageOutcome, MessagesOf, Behind, Run, Ok, AllKeepAlive, Extract;
    OneBehind(s);
    var r := Run(Fresh(s));
    if r.phase == Done {
      var tail := s[r.index..];
      var ms := MessagesOf(tail);
      assert ([Extract(r)] + ms)[1..] == ms;
      TailKeepsAlive([Extract(r)] + ms);
      BehindAll(tail);
      assert tail[Taken(ms)..] == s[r.index + Taken(ms)..];
    } else {
      MessageVerdict(s);
    }
  }

  lemma TailKeepsAlive(ms: seq<Parser>)
    requires ms != [] && AllKeepAlive(ms)
    ensures AllKeepAlive(ms[1..])
  {
  }

  /** On a keep-alive stream: it has closed exactly if the receive buffer has overflowed or the bytes behind the last
      message are malformed. */
  lemma ClosedIffMalformed(limit: nat, workers: set<nat>, events: seq<Event>, s: Session)
    requires Reaches(Initial(limit, workers), events, s) && Quiet(s) && AllKeepAlive(MessagesOf(s.total))
    ensures var n := Taken(MessagesOf(s.total));
      && n <= |s.total|
      && (CloseIt in s.outbox <==> s.overflow || MessageOutcome(s.total[n..]).Fails?)
  {
    hide Reaches, MessageOutcome, MessagesOf, AllKeepAlive, Behind, Taken;
    ClosedIff(limit, workers, events, s);
    BehindAll(s.total);
  }

  /** Every response to a request that does not keep the connection alive has a close right behind it. */
  predicate Paired(s: Session) {
    forall i :: 0 <= i < |s.outbox| ==> PairedAt(s.outbox, s.handled, i)
  }

  predicate PairedAt(box: seq<Reply>, handled: seq<Parser>, i: nat)
    requires i < |box|
  {
    box[i].Response? ==>
      && box[i].nth < |handled|
      && (!handled[box[i].nth].flags.keepAlive ==> i + 1 < |box| && box[i + 1].CloseIt?)
  }

  /** Neither a close nor a new answer to a new request behind it breaks a pair. */
  lemma PairStays(box: seq<Reply>, handled: seq<Parser>, i: nat, box': seq<Reply>, handled': seq<Parser>)
    requires i < |box| && PairedAt(box, handled, i) && box <= box' && handled <= handled'
    ensures PairedAt(box', handled', i)
  {
  }

  /** The reply is the response to the nth request, and the close follows it if that request asks for it. */
  predicate AnswersLast(s: Session, i: nat, n: nat)
    requires i < |s.outbox| && n < |s.handled|
  {
    && s.outbox[i] == Response(n)
    && (!s.handled[n].flags.keepAlive ==> i + 1 < |s.outbox| && s.outbox[i + 1] == CloseIt)
  }

  lemma SamePaired(s: Session, s': Session)
    requires Paired(s) && s'.handled == s.handled && (s'.outbox == s.outbox || s'.outbox == s.outbox + [CloseIt])
    ensures Paired(s')
  {
    hide PairedAt;
    forall i | 0 <= i < |s'.outbox|
      ensures PairedAt(s'.outbox, s'.handled, i)
    {
      if i < |s.outbox| {
        PairStays(s.outbox, s.handled, i, s'.outbox, s'.handled);
      } else {
        CloseAlone(s'.outbox, s'.handled, i);
      }
    }
  }

  lemma CloseAlone(box: seq<Reply>, handled: seq<Parser>, i: nat)
    requires i < |box| && box[i] == CloseIt
    ensures PairedAt(box, handled, i)
  {
  }

  lemma MorePaired(s: Session, s': Session, m: Parser)
    requires Paired(s) && s'.handled == s.handled + [m]
    requires var box := s.outbox + [Response(|s.handled|)];
      s'.outbox == if m.flags.keepAlive then box else box + [CloseIt]
    ensures Paired(s')
  {
    hide PairedAt;
    forall i | 0 <= i < |s'.outbox|
      ensures PairedAt(s'.outbox, s'.handled, i)
    {
      if i < |s.outbox| {
        PairStays(s.outbox, s.handled, i, s'.outbox, s'.handled);
      } else if i == |s.outbox| {
        NewPair(s'.outbox, s'.handled, i, m);
      } else {
        CloseAlone(s'.outbox, s'.handled, i);
      }
    }
  }

  lemma NewPair(box: seq<Reply>, handled: seq<Parser>, i: nat, m: Parser)
    requires i < |box| && handled != [] && handled[|handled| - 1] == m && box[i] == Response(|handled| - 1)
    requires !m.flags.keepAlive ==> i + 1 < |box| && box[i + 1] == CloseIt
    ensures PairedAt(box, handled, i)
  {
  }

  lemma HandlePaired(s: Session, w: nat)
    requires Ok(s.ctx) && Can(s, Handle(w)) && Paired(s)
    ensures Paired(Do(s, Handle(w)))
  {
    R.HandleBox(s, w);
    DoneIndex(s.ctx);
    HandledMore(s, w);
    hide Ok, Do, Paired;
    MorePaired(s, Do(s, Handle(w)), Extract(s.ctx));
  }

  lemma HandledMore(s: Session, w: nat)
    requires Ok(s.ctx) && Can(s, Handle(w))
    ensures s.ctx.index <= |s.ctx.buf| && Do(s, Handle(w)).handled == s.handled + [Extract(s.ctx)]
  {
  }

  lemma DoPaired(s: Session, e: Event)
    requires Ok(s.ctx) && Can(s, e) && Paired(s)
    ensures Paired(Do(s, e))
  {
    hide Do, Ok, Paired;
    if e.Handle? {
      HandlePaired(s, e.w);
    } else if e.Analyse? {
      R.AnalyseBox(s, e.w);
      SamePaired(s, Do(s, e));
    } else {
      R.NoReply(s, e);
      SamePaired(s, Do(s, e));
    }
  }

  lemma {:induction false} RunPaired(s: Session, events: seq<Event>, s': Session)
    requires Ok(s.ctx) && Paired(s) && Reaches(s, events, s')
    ensures Paired(s')
    decreases |events|
  {
    hide Ok, Paired, Do, Can;
    if events != [] {
      DoPaired(s, events[0]);
      RunPaired(Do(s, events[0]), events[1..], s');
    }
  }

  /** In every run on every stream each handled request has its response, and if it does not keep the connection alive a
      close right behind it. */
  lemma CloseBehindLastResponse(limit: nat, workers: set<nat>, events: seq<Event>, s: Session, n: nat)
    requires Reaches(Initial(limit, workers), events, s) && n < |s.handled|
    ensures exists i :: 0 <= i < |s.outbox| && AnswersLast(s, i, n)
  {
    hide Reaches, Inv, Ok, MessagesOf;
    R.NoReplies(limit, workers);
    R.RunReplies(Initial(limit, workers), events, s);
    Begins(limit, workers);
    RunPaired(Initial(limit, workers), events, s);
    assert n in R.UpTo(|s.handled|) by {
      assert R.UpTo(|s.handled|)[n] == n;
    }
    var i := AnswerAt(s.outbox, n);
    assert PairedAt(s.outbox, s.handled, i);
    assert AnswersLast(s, i, n);
  }

  lemma Begins(limit: nat, workers: set<nat>)
    ensures Ok(Initial(limit, workers).ctx) && Paired(Initial(limit, workers))
  {
    FreshOk([]);
  }

  lemma {:induction false} AnswerAt(box: seq<Reply>, n: nat) returns (i: nat)
    requires n in R.Answered(box)
    ensures i < |box| && box[i] == Response(n)
  {
    var k := |box| - 1;
    if box[k] == Response(n) {
      i := k;
    } else {
      i := AnswerAt(box[..k], n);
    }
  }
}
