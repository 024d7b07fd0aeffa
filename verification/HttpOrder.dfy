/** Exactly which streams a session handles in order whatever the workers do. */
module HttpOrders {
  import opened Bytes
  import opened HttpParser
  import opened HttpBoundary
  import H = HttpHeader
  import K = HttpFields
  import F = HttpFraming
  import opened HttpPipeline
  import opened HttpWorkers

  /** No run on the stream `t`, cut into any packets, handles anything but the messages of the stream in order. */
  ghost predicate InOrderAlways(t: seq<byte>, limit: nat, workers: set<nat>) {
    forall events, s :: Reaches(Initial(limit, workers), events, s) && s.total == t && !s.overflow ==>
      s.handled <= MessagesOf(t)
  }

  lemma {:induction false} OneMore(s0: Session, events: seq<Event>, s: Session, e: Event)
    requires Ok(s0.ctx) && Reaches(s0, events, s)
    requires Ok(s.ctx) && Can(s, e) && Ok(Do(s, e).ctx)
    ensures Reaches(s0, events + [e], Do(s, e))
    decreases |events|
  {
    hide Ok, Can, Do;
    if events == [] {
      assert ([] + [e])[1..] == [];
    } else {
      assert (events + [e])[1..] == events[1..] + [e];
      OneMore(Do(s0, events[0]), events[1..], s, e);
    }
  }

  /** A run and the session it has reached. */
  datatype Trace = Trace(events: seq<Event>, s: Session)

  ghost predicate From(s0: Session, r: Trace) {
    Ok(s0.ctx) && Ok(r.s.ctx) && Reaches(s0, r.events, r.s)
  }

  lemma Next(s0: Session, r: Trace, e: Event) returns (r': Trace)
    requires From(s0, r) && Can(r.s, e)
    ensures From(s0, r') && r'.s == Do(r.s, e)
  {
    hide Ok, Can, Do;
    StepContext(r.s, e);
    OneMore(s0, r.events, r.s, e);
    r' := Trace(r.events + [e], Do(r.s, e));
  }

  /** One worker holds the lock, nothing waits to be merged, and `n` more tasks are queued. */
  predicate Alone(s: Session, w: nat, pc: Pc, t: seq<byte>, n: nat) {
    At(s, w, pc) && s.holder == [w] && s.raw == [] && !s.overflow && s.queued == n && s.total == t
  }

  /** Both halves of the stream have arrived, each with its task, and one worker has merged them. */
  lemma Begin(t: seq<byte>, limit: nat, workers: set<nat>, w: nat) returns (r: Trace)
    requires w in workers && 2 <= |t| <= limit
    ensures From(Initial(limit, workers), r) && Alone(r.s, w, Analysing, t, 1)
    ensures r.s.ctx == Fresh(t) && r.s.handled == []
  {
    hide Ok, Reaches, From;
    var s0 := Initial(limit, workers);
    assert From(s0, Trace([], s0)) by {
      Nothing(limit, workers);
    }
    r := Next(s0, Trace([], s0), Receive(t[..1]));
    r := Next(s0, r, PushTask);
    r := Next(s0, r, Receive(t[1..]));
    assert [] + t[..1] + t[1..] == t;
    r := Next(s0, r, PushTask);
    r := Next(s0, r, Take(w));
    r := Next(s0, r, Lock(w));
    r := Next(s0, r, Merge(w));
    assert [] + t == t;
  }

  lemma Nothing(limit: nat, workers: set<nat>)
    ensures From(Initial(limit, workers), Trace([], Initial(limit, workers)))
  {
  }

  lemma MessagesUnroll(u: seq<byte>)
    requires MessagesOf(u) != []
    ensures Ok(Fresh(u)) && Ok(Run(Fresh(u)))
    ensures var r := Run(Fresh(u));
      && r.phase == Done && 0 < r.index <= |r.buf| == |u|
      && MessagesOf(u) == [Extract(r)] + (if r.flags.keepAlive then MessagesOf(r.buf[r.index..]) else [])
  {
    FreshOk(u);
    PendingFresh(u);
  }

  lemma AllAreTail(p: Parser, rest: seq<Parser>)
    requires p.flags.keepAlive && AllKeepAlive(rest)
    ensures AllKeepAlive([p] + rest)
  {
  }

  /** What handling the request at hand pushes. */
  function Answer(s: Session): seq<Reply> {
    if s.ctx.flags.keepAlive then [Response(|s.handled|)] else [Response(|s.handled|), CloseIt]
  }

  /** The actions of the lock holder, one lemma each. */
  lemma Analysing1(s0: Session, r: Trace, w: nat, t: seq<byte>, n: nat) returns (r': Trace)
    requires From(s0, r) && Alone(r.s, w, Analysing, t, n) && Ok(r.s.ctx) && Run(r.s.ctx).phase == Done
    ensures From(s0, r') && Alone(r'.s, w, Handling, t, n)
    ensures r'.s.ctx == Run(r.s.ctx) && r'.s.handled == r.s.handled && r'.s.outbox == r.s.outbox
  {
    hide Ok, From, Run;
    r' := Next(s0, r, Analyse(w));
  }

  lemma Handling1(s0: Session, r: Trace, w: nat, t: seq<byte>, n: nat) returns (r': Trace)
    requires From(s0, r) && Alone(r.s, w, Handling, t, n)
    ensures From(s0, r') && Alone(r'.s, w, if r.s.ctx.flags.keepAlive then Clearing else Unlocking, t, n)
    ensures r.s.ctx.index <= |r.s.ctx.buf|
    ensures r'.s.ctx == r.s.ctx && r'.s.handled == r.s.handled + [Extract(r.s.ctx)]
    ensures r'.s.outbox == r.s.outbox + Answer(r.s)
  {
    assert r.s.ctx.index <= |r.s.ctx.buf|;
    hide Ok, From;
    r' := Next(s0, r, Handle(w));
  }

  lemma Clearing1(s0: Session, r: Trace, w: nat, t: seq<byte>, n: nat) returns (r': Trace)
    requires From(s0, r) && Alone(r.s, w, Clearing, t, n)
    ensures r.s.ctx.index <= |r.s.ctx.buf|
    ensures From(s0, r') && Alone(r'.s, w, Merging, t, n)
    ensures r'.s.ctx == Fresh(r.s.ctx.buf[r.s.ctx.index..]) && r'.s.handled == r.s.handled
  {
    assert r.s.ctx.index <= |r.s.ctx.buf|;
    hide Ok, From;
    r' := Next(s0, r, Clear(w));
  }

  lemma Merging1(s0: Session, r: Trace, w: nat, t: seq<byte>, n: nat) returns (r': Trace)
    requires From(s0, r) && Alone(r.s, w, Merging, t, n)
    ensures From(s0, r') && Alone(r'.s, w, Analysing, t, n)
    ensures r'.s.ctx == r.s.ctx && r'.s.handled == r.s.handled && r'.s.outbox == r.s.outbox
  {
    hide Ok, From;
    r' := Next(s0, r, Merge(w));
  }

  lemma NextTask(s0: Session, r: Trace, w: nat, t: seq<byte>, n: nat) returns (r': Trace)
    requires From(s0, r) && Alone(r.s, w, Unlocking, t, n + 1)
    ensures From(s0, r') && Alone(r'.s, w, Merging, t, n)
    ensures r'.s.ctx == r.s.ctx && r'.s.handled == r.s.handled && r'.s.outbox == r.s.outbox
  {
    hide Ok, From;
    r' := Next(s0, r, Unlock(w));
    r' := Next(s0, r', Take(w));
    r' := Next(s0, r', Lock(w));
  }

  /** The worker deals with the first message and is then behind it. */
  lemma DealWithOne(s0: Session, r: Trace, w: nat, u: seq<byte>, t: seq<byte>) returns (r': Trace)
    requires From(s0, r) && Alone(r.s, w, Analysing, t, 1) && r.s.ctx == Fresh(u) && MessagesOf(u) != []
    ensures var m := MessagesOf(u)[0];
      && From(s0, r') && Alone(r'.s, w, if m.flags.keepAlive then Clearing else Unlocking, t, 1)
      && r'.s.handled == r.s.handled + [m] && r'.s.ctx.phase == Done && r'.s.ctx.index <= |r'.s.ctx.buf| == |u|
      && r'.s.ctx.index > 0 && m == Extract(r'.s.ctx) && r'.s.ctx.flags == m.flags
      && MessagesOf(u) == [m] + (if m.flags.keepAlive then MessagesOf(r'.s.ctx.buf[r'.s.ctx.index..]) else [])
      && (!m.flags.keepAlive ==> CloseIt in r'.s.outbox)
  {
    hide Ok, Reaches, From, Run, MessagesOf, Alone;
    MessagesUnroll(u);
    r' := Analysing1(s0, r, w, t, 1);
    r' := Handling1(s0, r', w, t, 1);
  }

  /** The worker deals with the messages one by one, up to the one that ends the connection. */
  lemma {:induction false} DealWithAll(s0: Session, r: Trace, w: nat, u: seq<byte>, t: seq<byte>) returns (r': Trace)
    requires From(s0, r) && Alone(r.s, w, Analysing, t, 1) && r.s.ctx == Fresh(u) && !AllKeepAlive(MessagesOf(u))
    ensures From(s0, r') && Alone(r'.s, w, Unlocking, t, 1)
    ensures r'.s.handled == r.s.handled + MessagesOf(u)
    ensures r'.s.ctx.phase == Done && !r'.s.ctx.flags.keepAlive && r'.s.ctx.index <= |r'.s.ctx.buf|
    ensures r'.s.handled != [] && r'.s.handled[|r'.s.handled| - 1] == Extract(r'.s.ctx)
    ensures CloseIt in r'.s.outbox
    decreases |u|
  {
    assert AllKeepAlive([]);
    hide Ok, Reaches, From, Run, MessagesOf, AllKeepAlive, Alone, Extract;
    r' := DealWithOne(s0, r, w, u, t);
    var m := MessagesOf(u)[0];
    if m.flags.keepAlive {
      var tail := r'.s.ctx.buf[r'.s.ctx.index..];
      if AllKeepAlive(MessagesOf(tail)) {
        AllAreTail(m, MessagesOf(tail));
      }
      r' := Clearing1(s0, r', w, t, 1);
      r' := Merging1(s0, r', w, t, 1);
      Assoc(r.s.handled, [m], MessagesOf(tail));
      r' := DealWithAll(s0, r', w, tail, t);
    }
  }

  lemma RunDone(p: Parser)
    requires Ok(p) && p.phase == Done
    ensures Run(p) == p && p.index <= |p.buf|
  {
  }

  /** The queued task finds the context finished and handles the last request once more. */
  lemma HandleAgain(s0: Session, r: Trace, w: nat, t: seq<byte>) returns (r': Trace)
    requires From(s0, r) && Alone(r.s, w, Unlocking, t, 1) && r.s.ctx.phase == Done && !r.s.ctx.flags.keepAlive
    ensures From(s0, r') && Alone(r'.s, w, Unlocking, t, 0)
    ensures r.s.ctx.index <= |r.s.ctx.buf| && r'.s.handled == r.s.handled + [Extract(r.s.ctx)]
    ensures r'.s.outbox == r.s.outbox + [Response(|r.s.handled|), CloseIt]
  {
    assert Ok(r.s.ctx);
    hide Ok, From, Run, Alone;
    RunDone(r.s.ctx);
    r' := NextTask(s0, r, w, t, 0);
    r' := Merging1(s0, r', w, t, 0);
    r' := Analysing1(s0, r', w, t, 0);
    r' := Handling1(s0, r', w, t, 0);
  }

  /** A message takes two bytes at least. */
  lemma MessagesNeedBytes(t: seq<byte>)
    requires MessagesOf(t) != []
    ensures |t| >= 2
  {
    hide Ok, Run, MessagesOf;
    MessagesUnroll(t);
    if t == [] {
      EmptyRun();
    } else if |t| == 1 {
      OneByteRun(t);
    }
  }

  lemma EmptyRun()
    ensures Ok(Fresh([])) && Run(Fresh([])).phase == Start
  {
  }

  lemma OneByteRun(t: seq<byte>)
    requires |t| == 1
    ensures Ok(Fresh(t)) && Run(Fresh(t)).phase != Done
  {
    var p := Fresh(t);
    F.RunStep(p);
    if t[0] != LF {
      F.RunStep(Step(p));
      LastByte(Step(Step(p)));
    }
  }

  lemma LastByte(p: Parser)
    requires Ok(p) && p.phase == ReadHeader && p.index == |p.buf|
    ensures Run(p) == p
  {
  }

  predicate ResponseBehindClose(box: seq<Reply>) {
    exists i, j :: 0 <= i < j < |box| && box[i].CloseIt? && box[j].Response?
  }

  lemma ResponseBehind(box: seq<Reply>, n: nat)
    requires CloseIt in box
    ensures ResponseBehindClose(box + [Response(n), CloseIt])
  {
    var i :| 0 <= i < |box| && box[i] == CloseIt;
    var more := box + [Response(n), CloseIt];
    assert more[i].CloseIt? && more[|box|].Response?;
  }

  lemma DealTwice(s0: Session, r: Trace, w: nat, t: seq<byte>) returns (r': Trace)
    requires From(s0, r) && Alone(r.s, w, Analysing, t, 1) && r.s.ctx == Fresh(t) && r.s.handled == []
    requires !AllKeepAlive(MessagesOf(t))
    ensures From(s0, r') && Alone(r'.s, w, Unlocking, t, 0)
    ensures MessagesOf(t) != [] && r'.s.handled == MessagesOf(t) + [MessagesOf(t)[|MessagesOf(t)| - 1]]
    ensures ResponseBehindClose(r'.s.outbox)
  {
    hide MessagesOf, Ok, Run, AllKeepAlive, Alone, From;
    r' := DealWithAll(s0, r, w, t, t);
    assert [] + MessagesOf(t) == MessagesOf(t);
    ResponseBehind(r'.s.outbox, |r'.s.handled|);
    r' := HandleAgain(s0, r', w, t);
  }

  /** A stream with a message that does not keep the connection alive: a run of one worker with two tasks handles that
      message twice. */
  lemma HandledTwice(t: seq<byte>, limit: nat, workers: set<nat>) returns (events: seq<Event>, s: Session)
    requires workers != {} && |t| <= limit && !AllKeepAlive(MessagesOf(t))
    ensures Reaches(Initial(limit, workers), events, s) && s.total == t && !s.overflow
    ensures MessagesOf(t) != [] && s.handled == MessagesOf(t) + [MessagesOf(t)[|MessagesOf(t)| - 1]]
    ensures ResponseBehindClose(s.outbox)
  {
    var w :| w in workers;
    assert MessagesOf(t) != [];
    MessagesNeedBytes(t);
    hide MessagesOf, Run, Reaches, AllKeepAlive, Alone, From;
    var r := Begin(t, limit, workers, w);
    r := DealTwice(Initial(limit, workers), r, w, t);
    Reached(Initial(limit, workers), r, w, t);
    events, s := r.events, r.s;
  }

  lemma Reached(s0: Session, r: Trace, w: nat, t: seq<byte>)
    requires From(s0, r) && Alone(r.s, w, Unlocking, t, 0)
    ensures Ok(s0.ctx) && Reaches(s0, r.events, r.s) && r.s.total == t && !r.s.overflow
  {
  }

  /** Requests are handled in stream order and once each in every run exactly if every message of the stream keeps the
      connection alive. */
  lemma OrderIffKeepAlive(t: seq<byte>, limit: nat, workers: set<nat>)
    requires workers != {} && |t| <= limit
    ensures InOrderAlways(t, limit, workers) <==> AllKeepAlive(MessagesOf(t))
  {
    hide MessagesOf, Reaches;
    if AllKeepAlive(MessagesOf(t)) {
      forall events, s | Reaches(Initial(limit, workers), events, s) && s.total == t && !s.overflow
        ensures s.handled <= MessagesOf(t)
      {
        WorkersPreserveStreamOrder(limit, workers, events, s);
      }
    } else {
      var events, s := HandledTwice(t, limit, workers);
      assert !(s.handled <= MessagesOf(t));
    }
  }

  const CLOSE_TEXT: seq<byte> := [99, 108, 111, 115, 101]

  lemma PlainLine()
    ensures var line := K.FieldLine([], H.CONNECTION, [], [], CLOSE_TEXT, []);
      line == H.CONNECTION + [COLON] + CLOSE_TEXT && line != [] && |line| < 30 && LF !in line
  {
    assert LF !in H.CONNECTION && LF !in CLOSE_TEXT;
  }

  lemma ClosingLine() returns (line: seq<byte>)
    ensures line != [] && |line| < 30 && LF !in line
    ensures H.FlagsOf([line]) == H.DEFAULT_FLAGS.(keepAlive := false)
  {
    assert H.FlagsOf([]) == H.DEFAULT_FLAGS;
    hide H.FlagsOf, K.FieldLine;
    line := K.FieldLine([], H.CONNECTION, [], [], CLOSE_TEXT, []);
    PlainLine();
    K.ConnectionSelects([], [], H.CONNECTION, [], [], CLOSE_TEXT, []);
    assert [] + [line] == [line];
  }

  lemma ClosingMessage(line: seq<byte>)
    requires line != [] && LF !in line && H.FlagsOf([line]) == H.DEFAULT_FLAGS.(keepAlive := false)
    ensures var m := F.Message([line], F.NoBody);
      F.Valid(m) && |F.Encode(m)| == |line| + 4 && !H.FlagsOf(m.lines).keepAlive
  {
    hide H.FlagsOf;
    assert F.EncodeLines([line][1..]) == [];
  }

  /** Such streams exist: one request with the line `Connection:close`. */
  lemma ClosingStream() returns (t: seq<byte>)
    ensures |t| < 40 && |MessagesOf(t)| == 1 && !AllKeepAlive(MessagesOf(t))
  {
    hide H.FlagsOf, Ok, Run, F.Encode, F.Valid, F.LineTexts, F.RangeTexts;
    var line := ClosingLine();
    ClosingMessage(line);
    var m := F.Message([line], F.NoBody);
    t := F.Encode(m);
    assert t + [] == t;
    F.MessageRoundTrip(m, []);
    PendingFresh(t);
    assert !MessagesOf(t)[0].flags.keepAlive;
  }

  /** What is held never exceeds what has arrived, so only a stream over the limit can overflow. */
  predicate Held(s: Session) {
    && |s.ctx.buf| + |s.raw| <= |s.total|
    && (s.overflow ==> |s.total| > s.limit)
  }

  lemma HeldMerge(s: Session, w: nat)
    requires Ok(s.ctx) && Can(s, Merge(w)) && Held(s)
    ensures Held(Do(s, Merge(w))) && Do(s, Merge(w)).limit == s.limit
  {
    hide Ok;
  }

  lemma HeldAnalyse(s: Session, w: nat)
    requires Ok(s.ctx) && Can(s, Analyse(w)) && Held(s)
    ensures Held(Do(s, Analyse(w))) && Do(s, Analyse(w)).limit == s.limit
  {
    RunLength(s.ctx);
    hide Run, Ok;
  }

  lemma HeldClear(s: Session, w: nat)
    requires Ok(s.ctx) && Can(s, Clear(w)) && Held(s)
    ensures Held(Do(s, Clear(w))) && Do(s, Clear(w)).limit == s.limit
  {
    DoneIndex(s.ctx);
    hide Ok;
  }

  lemma HeldOther(s: Session, e: Event)
    requires Ok(s.ctx) && Can(s, e) && Held(s) && !e.Merge? && !e.Analyse? && !e.Clear?
    ensures Held(Do(s, e)) && Do(s, e).limit == s.limit
  {
    hide Ok, Run, MessagesOf;
  }

  lemma DoHeld(s: Session, e: Event)
    requires Ok(s.ctx) && Can(s, e) && Held(s)
    ensures Held(Do(s, e)) && Do(s, e).limit == s.limit
  {
    hide Ok, Do, Held, Can;
    if e.Merge? {
      HeldMerge(s, e.w);
    } else if e.Analyse? {
      HeldAnalyse(s, e.w);
    } else if e.Clear? {
      HeldClear(s, e.w);
    } else {
      HeldOther(s, e);
    }
  }

  lemma RunLength(p: Parser)
    requires Ok(p)
    ensures |Run(p).buf| == |p.buf|
  {
  }

  lemma {:induction false} RunHeld(s: Session, events: seq<Event>, s': Session)
    requires Ok(s.ctx) && Held(s) && Reaches(s, events, s')
    ensures Held(s') && s'.limit == s.limit
    decreases |events|
  {
    hide Held, Do, Can, Ok;
    if events != [] {
      DoHeld(s, events[0]);
      RunHeld(Do(s, events[0]), events[1..], s');
    }
  }

  lemma LongStreamOverflows(t: seq<byte>, limit: nat, workers: set<nat>, w: nat)
    returns (events: seq<Event>, s: Session)
    requires w in workers && |t| > limit
    ensures Reaches(Initial(limit, workers), events, s) && s.total == t && s.overflow
  {
    var s0 := Initial(limit, workers);
    var r := Arrived(t, limit, workers, w);
    hide Ok, Reaches, From, Initial;
    r := Next(s0, r, Take(w));
    r := Next(s0, r, Lock(w));
    r := Next(s0, r, Merge(w));
    FromReaches(s0, r);
    events, s := r.events, r.s;
  }

  lemma Arrived(t: seq<byte>, limit: nat, workers: set<nat>, w: nat) returns (r: Trace)
    requires w in workers && t != []
    ensures From(Initial(limit, workers), r)
    ensures At(r.s, w, Idle) && r.s.holder == [] && r.s.queued == 1 && r.s.raw == r.s.total == t && r.s.ctx.buf == []
    ensures r.s.limit == limit && !r.s.overflow
  {
    Nothing(limit, workers);
    var s0 := Initial(limit, workers);
    assert [] + t == t;
    hide Ok, Reaches, From;
    r := Next(s0, Trace([], s0), Receive(t));
    r := Next(s0, r, PushTask);
  }

  lemma FromReaches(s0: Session, r: Trace)
    requires From(s0, r)
    ensures Ok(s0.ctx) && Reaches(s0, r.events, r.s)
  {
  }

  ghost predicate NeverOverflows(t: seq<byte>, limit: nat, workers: set<nat>) {
    forall events, s :: Reaches(Initial(limit, workers), events, s) && s.total == t ==> !s.overflow
  }

  /** No run on a stream overflows exactly if the whole stream fits into the limit. */
  lemma OverflowIff(t: seq<byte>, limit: nat, workers: set<nat>)
    requires workers != {}
    ensures NeverOverflows(t, limit, workers) <==> |t| <= limit
  {
    hide Reaches;
    if |t| > limit {
      var w :| w in workers;
      var events, s := LongStreamOverflows(t, limit, workers, w);
    } else {
      forall events, s | Reaches(Initial(limit, workers), events, s) && s.total == t
        ensures !s.overflow
      {
        RunHeld(Initial(limit, workers), events, s);
      }
    }
  }
}
