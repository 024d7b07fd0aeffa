/** One live session under any number of worker threads: the network thread pushes bytes and then a task, workers
    take tasks and run ChttpTask::run under the context lock. Every atomic action is one event, and an arbitrary
    sequence of enabled events is one interleaving. The session holds its context throughout. */
module HttpWorkers {
  import opened Bytes
  import opened HttpHeader
  import opened HttpParser
  import opened HttpBoundary
  import opened HttpFraming
  import opened HttpPipeline

  /** Where a worker is: without a task of this session, before the context lock, or at an action of the loop. */
  datatype Pc = Idle | HasTask | Merging | Analysing | Handling | Clearing | Unlocking

  /** What a task pushes to the pool: the response to the nth request that was handled, or the close of the socket. */
  datatype Reply = Response(nth: nat) | CloseIt

  datatype Session = Session(
    limit: nat,
    ctx: Parser,
    overflow: bool,
    raw: seq<byte>,
    pushing: bool,
    queued: nat,
    workers: map<nat, Pc>,
    holder: seq<nat>,
    handled: seq<Parser>,
    outbox: seq<Reply>,
    total: seq<byte>)

  datatype Event =
    | Receive(bytes: seq<byte>)
    | PushTask
    | Take(w: nat)
    | Lock(w: nat)
    | Merge(w: nat)
    | Analyse(w: nat)
    | Handle(w: nat)
    | Clear(w: nat)
    | Unlock(w: nat)

  predicate At(s: Session, w: nat, pc: Pc) {
    w in s.workers && s.workers[w] == pc
  }

  predicate Can(s: Session, e: Event) {
    match e
    case Receive(bytes) => !s.pushing && bytes != []
    case PushTask => s.pushing
    case Take(w) => At(s, w, Idle) && s.queued > 0
    case Lock(w) => At(s, w, HasTask) && s.holder == []
    case Merge(w) => At(s, w, Merging)
    case Analyse(w) => At(s, w, Analysing)
    case Handle(w) => At(s, w, Handling)
    case Clear(w) => At(s, w, Clearing)
    case Unlock(w) => At(s, w, Unlocking)
  }

  function Go(s: Session, w: nat, pc: Pc): Session {
    s.(workers := s.workers[w := pc])
  }

  /** `merge`: everything that was pushed moves behind the received bytes, or is dropped with the overflow flag. */
  function Merged(s: Session): Session {
    if s.raw == [] then s
    else if |s.raw| + |s.ctx.buf| > s.limit then s.(overflow := true, raw := [])
    else s.(ctx := Append(s.ctx, s.raw), raw := [])
  }

  /** `analysis`. */
  function Analysed(s: Session): Parser
    requires Ok(s.ctx)
  {
    if s.overflow then s.ctx.(phase := Bad) else Run(s.ctx)
  }

  function Do(s: Session, e: Event): Session
    requires Ok(s.ctx) && Can(s, e)
  {
    match e
    case Receive(bytes) => s.(raw := s.raw + bytes, total := s.total + bytes, pushing := true)
    case PushTask => s.(queued := s.queued + 1, pushing := false)
    case Take(w) => Go(s, w, HasTask).(queued := s.queued - 1)
    case Lock(w) => Go(s, w, Merging).(holder := [w])
    case Merge(w) => Go(Merged(s), w, Analysing)
    case Analyse(w) =>
      var p := Analysed(s);
      if p.phase == Done then Go(s, w, Handling).(ctx := p)
      else Go(s, w, Unlocking).(ctx := p, outbox := s.outbox + (if p.phase == Bad then [CloseIt] else []))
    case Handle(w) =>
      var s' := s.(handled := s.handled + [Extract(s.ctx)], outbox := s.outbox + [Response(|s.handled|)]);
      if s.ctx.flags.keepAlive then Go(s', w, Clearing)
      else Go(s', w, Unlocking).(outbox := s'.outbox + [CloseIt])
    case Clear(w) => Go(s, w, Merging).(ctx := Fresh(s.ctx.buf[s.ctx.index..]))
    case Unlock(w) => Go(s, w, Idle).(holder := [])
  }

  function Initial(limit: nat, workers: set<nat>): Session {
    Session(limit, Fresh([]), false, [], false, 0, map w | w in workers :: Idle, [], [], [], [])
  }

  /** The action that the lock holder is at; with no holder the context is as `Unlocking` leaves it. */
  function Stage(s: Session): Pc {
    if s.holder != [] && s.holder[0] in s.workers then s.workers[s.holder[0]] else Unlocking
  }

  predicate Critical(pc: Pc) {
    pc != Idle && pc != HasTask
  }

  predicate Exclusive(workers: map<nat, Pc>, holder: seq<nat>) {
    && |holder| <= 1
    && (holder != [] ==> holder[0] in workers)
    && forall w :: w in workers ==> (Critical(workers[w]) <==> holder == [w])
  }

  /** The context lock is exclusive. */
  predicate LockOk(s: Session) {
    Exclusive(s.workers, s.holder)
  }

  /** Bytes that were pushed but not merged always have a task that will still merge them. */
  predicate NoStall(s: Session) {
    s.raw != [] ==>
      s.pushing || s.queued > 0 || exists w :: w in s.workers && s.workers[w] in {HasTask, Merging}
  }

  predicate AllKeepAlive(ps: seq<Parser>) {
    forall i :: 0 <= i < |ps| ==> ps[i].flags.keepAlive
  }

  /** What the bytes that have arrived, and `x` behind them, will still make of the session. */
  function Rest(s: Session, x: seq<byte>): seq<Parser>
    requires Ok(s.ctx)
  {
    if Stage(s) == Clearing then MessagesOf(s.ctx.buf[s.ctx.index..] + (s.raw + x))
    else
      AppendOk(s.ctx, s.raw + x);
      Pending(Append(s.ctx, s.raw + x))
  }

  predicate StageOk(s: Session)
    requires Ok(s.ctx)
  {
    match Stage(s)
    case Handling => s.ctx.phase == Done
    case Clearing => s.ctx.phase == Done && s.ctx.flags.keepAlive
    case Unlocking => !Enabled(s.ctx) && s.ctx.phase != Done
    case _ => true
  }

  /** Whatever arrives next, handled messages and messages still to come are the messages of everything received. */
  ghost predicate Balanced(s: Session)
    requires Ok(s.ctx)
  {
    forall x :: s.handled + Rest(s, x) == MessagesOf(s.total + x)
  }

  ghost predicate Conserved(s: Session)
    requires Ok(s.ctx)
  {
    if s.overflow then s.handled <= MessagesOf(s.total) && Stage(s) in {Analysing, Unlocking, Merging}
    else Balanced(s) && StageOk(s)
  }

  ghost predicate Inv(s: Session) {
    Ok(s.ctx) && LockOk(s) && NoStall(s) && (AllKeepAlive(MessagesOf(s.total)) ==> Conserved(s))
  }

  lemma InitialInv(limit: nat, workers: set<nat>)
    ensures Inv(Initial(limit, workers))
  {
    var s := Initial(limit, workers);
    FreshOk([]);
    forall x
      ensures s.handled + Rest(s, x) == MessagesOf(s.total + x)
    {
      assert [] + x == x;
      assert Append(s.ctx, s.raw + x) == Fresh(x);
      PendingFresh(x);
    }
  }

  lemma BalancedNow(s: Session)
    requires Ok(s.ctx) && Balanced(s)
    ensures s.handled + Rest(s, []) == MessagesOf(s.total) && s.handled <= MessagesOf(s.total)
  {
    assert s.total + [] == s.total;
  }

  lemma KeepAlivePrefix(s: seq<byte>, x: seq<byte>)
    requires AllKeepAlive(MessagesOf(s + x))
    ensures AllKeepAlive(MessagesOf(s))
  {
    MessagesPrefix(s, x);
    var all := MessagesOf(s + x);
    assert forall i :: 0 <= i < |MessagesOf(s)| ==> MessagesOf(s)[i] == all[i];
  }

  lemma ReceiveBalances(s: Session, b: seq<byte>)
    requires Ok(s.ctx) && Can(s, Receive(b)) && Balanced(s)
    ensures Balanced(Do(s, Receive(b)))
  {
    var s' := Do(s, Receive(b));
    forall x
      ensures s'.handled + Rest(s', x) == MessagesOf(s'.total + x)
    {
      Assoc(s.total, b, x);
      Assoc(s.raw, b, x);
      assert s.handled + Rest(s, b + x) == MessagesOf(s.total + (b + x));
    }
  }

  lemma MergeRest(s: Session, w: nat, x: seq<byte>)
    requires Ok(s.ctx) && Can(s, Merge(w)) && s.holder == [w] && !Do(s, Merge(w)).overflow && !s.overflow
    ensures Ok(Do(s, Merge(w)).ctx) && Rest(Do(s, Merge(w)), x) == Rest(s, x)
  {
    hide Ok, Pending, MessagesOf;
    AppendOk(s.ctx, s.raw);
    AppendAppend(s.ctx, s.raw, x);
    assert [] + x == x;
  }

  lemma AnalyseRest(s: Session, w: nat, x: seq<byte>)
    requires Ok(s.ctx) && Can(s, Analyse(w)) && s.holder == [w] && !s.overflow
    ensures Ok(Do(s, Analyse(w)).ctx) && Rest(Do(s, Analyse(w)), x) == Rest(s, x)
  {
    hide Ok, Pending, MessagesOf, Run;
    PendingRunAppend(s.ctx, s.raw + x);
  }

  lemma HandleRest(s: Session, w: nat, x: seq<byte>)
    requires Ok(s.ctx) && Can(s, Handle(w)) && s.holder == [w] && s.ctx.phase == Done
    ensures s.ctx.index <= |s.ctx.buf|
    ensures s.ctx.flags.keepAlive ==> Rest(s, x) == [Extract(s.ctx)] + Rest(Do(s, Handle(w)), x)
    ensures Rest(s, x) != [] && Rest(s, x)[0] == Extract(s.ctx)
  {
    hide Ok, Pending, MessagesOf, Run;
    PendingDone(s.ctx, s.raw + x);
    DoneIndex(s.ctx);
  }

  lemma DoneIndex(p: Parser)
    requires Ok(p)
    ensures p.index <= |p.buf|
  {
  }

  lemma ClearRest(s: Session, w: nat, x: seq<byte>)
    requires Ok(s.ctx) && Can(s, Clear(w)) && s.holder == [w]
    ensures Ok(Do(s, Clear(w)).ctx) && Rest(Do(s, Clear(w)), x) == Rest(s, x)
  {
    hide Ok, Pending, MessagesOf;
    DoneIndex(s.ctx);
    var tail := s.ctx.buf[s.ctx.index..];
    FreshOk(tail);
    PendingFresh(tail + (s.raw + x));
  }

  /** A balanced session stays balanced when an event changes neither what was handled nor what is to come. */
  lemma SameRestBalances(s: Session, s': Session)
    requires Ok(s.ctx) && Ok(s'.ctx) && Balanced(s)
    requires s'.handled == s.handled && s'.total == s.total
    requires forall x :: Rest(s', x) == Rest(s, x)
    ensures Balanced(s')
  {
    hide Ok, Rest, MessagesOf;
    forall x
      ensures s'.handled + Rest(s', x) == MessagesOf(s'.total + x)
    {
      assert Rest(s', x) == Rest(s, x);
      assert s.handled + Rest(s, x) == MessagesOf(s.total + x);
    }
  }

  /** The message at hand is the next one of the stream, so it keeps the connection alive. */
  lemma HandledIsNext(s: Session, w: nat)
    requires Ok(s.ctx) && Can(s, Handle(w)) && s.holder == [w] && s.ctx.phase == Done && Balanced(s)
    requires AllKeepAlive(MessagesOf(s.total))
    ensures s.ctx.flags.keepAlive
  {
    hide Ok, Rest, MessagesOf;
    BalancedNow(s);
    HandleRest(s, w, []);
    var n := |s.handled|;
    assert MessagesOf(s.total)[n] == Extract(s.ctx);
  }

  lemma HandleBalances(s: Session, w: nat)
    requires Ok(s.ctx) && Can(s, Handle(w)) && s.holder == [w] && s.ctx.phase == Done && Balanced(s)
    requires s.ctx.flags.keepAlive
    ensures Balanced(Do(s, Handle(w)))
  {
    hide Ok, Rest, MessagesOf;
    var s' := Do(s, Handle(w));
    forall x
      ensures s'.handled + Rest(s', x) == MessagesOf(s'.total + x)
    {
      HandleRest(s, w, x);
      assert s.handled + Rest(s, x) == MessagesOf(s.total + x);
    }
  }

  /** Events of workers that do not hold the lock, and of the network thread between push and task. */
  predicate Outside(e: Event) {
    e.PushTask? || e.Take? || e.Lock? || e.Unlock?
  }

  lemma OutsideConserves(s: Session, e: Event)
    requires Ok(s.ctx) && LockOk(s) && Can(s, e) && Outside(e) && Conserved(s)
    ensures Conserved(Do(s, e))
  {
    hide Ok, MessagesOf, Pending;
    var s' := Do(s, e);
    assert Stage(s') == Stage(s) || (Stage(s) == Unlocking && Stage(s') == Merging);
    if !s.overflow {
      forall x
        ensures Rest(s', x) == Rest(s, x)
      {
      }
      SameRestBalances(s, s');
    }
  }

  lemma ReceiveConserves(s: Session, b: seq<byte>)
    requires Inv(s) && Can(s, Receive(b)) && AllKeepAlive(MessagesOf(s.total + b))
    ensures Conserved(Do(s, Receive(b)))
  {
    hide Ok, MessagesOf, Pending, Rest;
    KeepAlivePrefix(s.total, b);
    if s.overflow {
      MessagesPrefix(s.total, b);
    } else {
      ReceiveBalances(s, b);
    }
  }

  lemma MergeConserves(s: Session, w: nat)
    requires Ok(s.ctx) && LockOk(s) && Can(s, Merge(w)) && Conserved(s)
    ensures Ok(Do(s, Merge(w)).ctx) && Conserved(Do(s, Merge(w)))
  {
    hide Ok, MessagesOf, Pending, Rest;
    var s' := Do(s, Merge(w));
    AppendOk(s.ctx, s.raw);
    if !s'.overflow {
      forall x
        ensures Rest(s', x) == Rest(s, x)
      {
        MergeRest(s, w, x);
      }
      SameRestBalances(s, s');
    } else if !s.overflow {
      BalancedNow(s);
    }
  }

  lemma AnalysedOk(s: Session)
    requires Ok(s.ctx)
    ensures Ok(Analysed(s)) && !Enabled(Analysed(s))
  {
  }

  lemma AnalyseConserves(s: Session, w: nat)
    requires Ok(s.ctx) && LockOk(s) && Can(s, Analyse(w)) && Conserved(s)
    ensures Ok(Do(s, Analyse(w)).ctx) && Conserved(Do(s, Analyse(w)))
  {
    hide Ok, MessagesOf, Pending, Rest, Run;
    var s' := Do(s, Analyse(w));
    AnalysedOk(s);
    if !s.overflow {
      forall x
        ensures Rest(s', x) == Rest(s, x)
      {
        AnalyseRest(s, w, x);
      }
      SameRestBalances(s, s');
    }
  }

  lemma HandleConserves(s: Session, w: nat)
    requires Ok(s.ctx) && LockOk(s) && Can(s, Handle(w)) && Conserved(s) && AllKeepAlive(MessagesOf(s.total))
    ensures Conserved(Do(s, Handle(w)))
  {
    hide Ok, MessagesOf, Pending, Rest;
    HandledIsNext(s, w);
    HandleBalances(s, w);
  }

  lemma ClearConserves(s: Session, w: nat)
    requires Ok(s.ctx) && LockOk(s) && Can(s, Clear(w)) && Conserved(s)
    ensures Ok(Do(s, Clear(w)).ctx) && Conserved(Do(s, Clear(w)))
  {
    hide Ok, MessagesOf, Pending, Rest;
    var s' := Do(s, Clear(w));
    DoneIndex(s.ctx);
    FreshOk(s.ctx.buf[s.ctx.index..]);
    forall x
      ensures Rest(s', x) == Rest(s, x)
    {
      ClearRest(s, w, x);
    }
    SameRestBalances(s, s');
  }

  lemma StepContext(s: Session, e: Event)
    requires Ok(s.ctx) && Can(s, e)
    ensures Ok(Do(s, e).ctx)
  {
    hide Run;
    match e
    case Merge(_) => AppendOk(s.ctx, s.raw);
    case Analyse(_) => AnalysedOk(s);
    case Clear(_) => FreshOk(s.ctx.buf[s.ctx.index..]);
    case _ =>
  }

  lemma MoveKeepsLock(workers: map<nat, Pc>, holder: seq<nat>, w: nat, pc: Pc)
    requires Exclusive(workers, holder) && w in workers
    ensures Critical(pc) == Critical(workers[w]) ==> Exclusive(workers[w := pc], holder)
    ensures holder == [] && Critical(pc) ==> Exclusive(workers[w := pc], [w])
    ensures holder == [w] && !Critical(pc) ==> Exclusive(workers[w := pc], [])
  {
  }

  lemma StepLock(s: Session, e: Event)
    requires Ok(s.ctx) && LockOk(s) && Can(s, e)
    ensures LockOk(Do(s, e))
  {
    hide Ok, Run, Merged, Analysed, Exclusive;
    MergedFrame(s);
    if !e.Receive? && !e.PushTask? {
      MoveKeepsLock(s.workers, s.holder, e.w, Do(s, e).workers[e.w]);
      HolderIs(s, e.w);
    }
  }

  lemma HolderIs(s: Session, w: nat)
    requires LockOk(s) && w in s.workers
    ensures Critical(s.workers[w]) ==> s.holder == [w]
  {
  }

  lemma MergedFrame(s: Session)
    ensures var m := Merged(s);
      && m.workers == s.workers && m.holder == s.holder && m.pushing == s.pushing && m.queued == s.queued
      && m.raw == []
  {
  }

  lemma StepNoStall(s: Session, e: Event)
    requires Ok(s.ctx) && LockOk(s) && NoStall(s) && Can(s, e)
    ensures NoStall(Do(s, e))
  {
    hide Ok, Run, Merged, Analysed;
    MergedFrame(s);
    var s' := Do(s, e);
    if s'.raw != [] && !s'.pushing && s'.queued == 0 && !e.PushTask? && !e.Receive? {
      if e.Take? || e.Lock? || e.Clear? {
        assert e.w in s'.workers && s'.workers[e.w] in {HasTask, Merging};
      } else {
        var v :| v in s.workers && s.workers[v] in {HasTask, Merging};
        assert v in s'.workers && s'.workers[v] in {HasTask, Merging};
      }
    }
  }

  /** Every enabled event keeps the invariant. */
  lemma StepInv(s: Session, e: Event)
    requires Inv(s) && Can(s, e)
    ensures Inv(Do(s, e))
  {
    hide Ok, LockOk, NoStall, Conserved, MessagesOf;
    StepContext(s, e);
    StepLock(s, e);
    StepNoStall(s, e);
    if AllKeepAlive(MessagesOf(Do(s, e).total)) {
      match e
      case Receive(b) => ReceiveConserves(s, b);
      case Merge(w) => MergeConserves(s, w);
      case Analyse(w) => AnalyseConserves(s, w);
      case Handle(w) => HandleConserves(s, w);
      case Clear(w) => ClearConserves(s, w);
      case _ => OutsideConserves(s, e);
    }
  }

  /** `s'` is reached from `s` by the events, each enabled in its turn: one interleaving. */
  ghost predicate Reaches(s: Session, events: seq<Event>, s': Session)
    requires Ok(s.ctx)
    decreases |events|
  {
    if events == [] then s' == s
    else
      && Can(s, events[0])
      && Ok(Do(s, events[0]).ctx)
      && Reaches(Do(s, events[0]), events[1..], s')
  }

  lemma {:induction false} RunInv(s: Session, events: seq<Event>, s': Session)
    requires Inv(s) && Reaches(s, events, s')
    ensures Inv(s')
    decreases |events|
  {
    hide Ok, LockOk, NoStall, Conserved, MessagesOf, Do, Can;
    if events != [] {
      StepInv(s, events[0]);
      RunInv(Do(s, events[0]), events[1..], s');
    }
  }

  /** Nothing of this session is on its way: no task about to be pushed, queued or running. */
  predicate Quiet(s: Session) {
    !s.pushing && s.queued == 0 && forall w :: w in s.workers ==> s.workers[w] == Idle
  }

  lemma QuietIsDone(s: Session)
    requires Inv(s) && Quiet(s)
    ensures s.raw == []
    ensures AllKeepAlive(MessagesOf(s.total)) && !s.overflow ==> s.handled == MessagesOf(s.total)
  {
    hide MessagesOf;
    assert Stage(s) == Unlocking;
    if AllKeepAlive(MessagesOf(s.total)) && !s.overflow {
      BalancedNow(s);
      QuietPending(s.ctx);
      assert Append(s.ctx, [] + []) == s.ctx;
    }
  }

  lemma QuietPending(p: Parser)
    requires Ok(p) && !Enabled(p) && p.phase != Done
    ensures Pending(p) == []
  {
  }

  lemma InvHandled(s: Session)
    requires Inv(s) && AllKeepAlive(MessagesOf(s.total))
    ensures s.handled <= MessagesOf(s.total)
  {
    hide Rest, MessagesOf;
    if !s.overflow {
      BalancedNow(s);
    }
  }

  /** In every interleaving of packets and workers over a live keep-alive session: requests are handled in stream
      order and none is handled that the stream does not hold; pushed bytes never wait without a task that will
      merge them; and when no task is left, every complete request of the stream was handled exactly once. */
  lemma WorkersPreserveStreamOrder(limit: nat, workers: set<nat>, events: seq<Event>, s: Session)
    requires Reaches(Initial(limit, workers), events, s)
    ensures NoStall(s)
    ensures AllKeepAlive(MessagesOf(s.total)) ==> s.handled <= MessagesOf(s.total)
    ensures AllKeepAlive(MessagesOf(s.total)) && Quiet(s) && !s.overflow ==> s.handled == MessagesOf(s.total)
  {
    InitialInv(limit, workers);
    RunInv(Initial(limit, workers), events, s);
    if AllKeepAlive(MessagesOf(s.total)) {
      InvHandled(s);
    }
    if Quiet(s) {
      QuietIsDone(s);
    }
  }

  predicate AllValid(ms: seq<Message>) {
    forall i :: 0 <= i < |ms| ==> Valid(ms[i]) && KeepAlive(ms[i])
  }

  lemma CarriesKeepAlive(ps: seq<Parser>, ms: seq<Message>)
    requires CarryAll(ps, ms) && forall i :: 0 <= i < |ms| ==> KeepAlive(ms[i])
    ensures AllKeepAlive(ps)
  {
    hide FlagsOf;
    forall i | 0 <= i < |ps|
      ensures ps[i].flags.keepAlive
    {
      assert Carries(ps[i], ms[i]) && KeepAlive(ms[i]);
    }
  }

  lemma CarriedKeepAlive(ms: seq<Message>)
    requires AllValid(ms)
    ensures var got := MessagesOf(EncodeAll(ms)); CarryAll(got, ms) && AllKeepAlive(got)
  {
    hide MessagesOf, Valid, KeepAlive, Carries, EncodeAll;
    PipelineRoundTrip(ms, []);
    NothingOf();
    assert EncodeAll(ms) + [] == EncodeAll(ms);
    var got := MessagesOf(EncodeAll(ms));
    assert got == got[..|ms|] + got[|ms|..];
    CarriesKeepAlive(got, ms);
  }

  lemma NothingOf()
    ensures MessagesOf([]) == []
  {
  }

  /** From the peer to the handler: pipelined keep-alive requests, cut into any packets and processed by any workers
      in any interleaving, have been handled one by one with their own lines and content once no task is left. */
  lemma RequestsArriveIntact(ms: seq<Message>, limit: nat, workers: set<nat>, events: seq<Event>, s: Session)
    requires Reaches(Initial(limit, workers), events, s)
    ensures AllValid(ms) && s.total == EncodeAll(ms) && Quiet(s) && !s.overflow ==> CarryAll(s.handled, ms)
  {
    hide Reaches, EncodeAll;
    WorkersPreserveStreamOrder(limit, workers, events, s);
    if AllValid(ms) {
      CarriedKeepAlive(ms);
    }
  }

  /** The exception: after a request that ends the connection the context stays finished, so a task that still runs
      merges, analyses and handles the same request once more. */
  lemma LastRequestIsHandledAgain(s: Session, w: nat)
    requires Ok(s.ctx) && s.ctx.phase == Done && !s.ctx.flags.keepAlive && !s.overflow
    requires At(s, w, Merging) && |s.raw| + |s.ctx.buf| <= s.limit
    ensures var m := Do(s, Merge(w)); Ok(m.ctx) && Can(m, Analyse(w))
    ensures var a := Do(Do(s, Merge(w)), Analyse(w)); Ok(a.ctx) && Can(a, Handle(w))
    ensures var h := Do(Do(Do(s, Merge(w)), Analyse(w)), Handle(w));
      h.handled == s.handled + [Extract(s.ctx)] && At(h, w, Unlocking) && h.ctx == Append(s.ctx, s.raw) && h.raw == []
  {
    AppendAppend(s.ctx, [], []);
    PendingDone(s.ctx, s.raw);
  }
}
