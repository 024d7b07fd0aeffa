/** A JSON session over a whole run: packets arrive and are merged, messages are framed and handled, and the buffer is
    compacted, in any order. */
module JsonSessions {
  import opened Bytes
  import opened JsonParser
  import opened JsonFraming

  /** `lost` records a receive overflow, which drops what was queued and which `analysis` does not look at; `closed`,
      that a task has closed the connection. */
  datatype Session = Session(limit: nat, ctx: Parser, raw: seq<byte>, lost: bool, total: seq<byte>,
    handled: seq<seq<byte>>, closed: bool)

  datatype Event = Receive(bytes: seq<byte>) | Merge | Analyse | Clear

  function Do(s: Session, e: Event): Session
    requires Ok(s.ctx)
  {
    match e
    case Receive(bytes) => s.(raw := s.raw + bytes, total := s.total + bytes)
    case Merge =>
      if s.raw == [] then s
      else if |s.raw| + |s.ctx.buf| > s.limit then s.(raw := [], lost := true)
      else s.(ctx := Append(s.ctx, s.raw), raw := [])
    case Analyse =>
      var p := Run(s.ctx);
      if p.phase == Done then s.(ctx := Restarted(p), handled := s.handled + [Text(p)])
      else s.(ctx := p, closed := s.closed || p.phase == Bad)
    case Clear => s.(ctx := Cleared(s.ctx))
  }

  function Initial(limit: nat): Session {
    Session(limit, Fresh([]), [], false, [], [], false)
  }

  function Rest(s: Session, x: seq<byte>): seq<seq<byte>>
    requires Ok(s.ctx)
  {
    Pending(Append(s.ctx, s.raw + x))
  }

  /** Whatever arrives next, handled messages and messages to come are the messages of everything received. */
  ghost predicate Inv(s: Session) {
    && Ok(s.ctx) && s.ctx.phase != Done
    && (!s.lost ==> forall x :: s.handled + Rest(s, x) == MessagesOf(s.total + x))
  }

  lemma InitialInv(limit: nat)
    ensures Inv(Initial(limit))
  {
    var s := Initial(limit);
    forall x
      ensures s.handled + Rest(s, x) == MessagesOf(s.total + x)
    {
      assert [] + x == x;
      PendingFresh(x);
    }
  }

  lemma ReceiveRest(s: Session, b: seq<byte>, x: seq<byte>)
    requires Inv(s) && !s.lost
    ensures var s' := Do(s, Receive(b)); s'.handled + Rest(s', x) == MessagesOf(s'.total + x)
  {
    Assoc(s.total, b, x);
    Assoc(s.raw, b, x);
    assert s.handled + Rest(s, b + x) == MessagesOf(s.total + (b + x));
  }

  lemma MergeRest(s: Session, x: seq<byte>)
    requires Ok(s.ctx) && !Do(s, Merge).lost
    ensures Ok(Do(s, Merge).ctx) && Rest(Do(s, Merge), x) == Rest(s, x)
  {
    Assoc(s.ctx.buf, s.raw, x);
    assert [] + x == x;
  }

  lemma AnalyseRest(s: Session, x: seq<byte>)
    requires Ok(s.ctx)
    ensures var s' := Do(s, Analyse); Ok(s'.ctx) && s'.handled + Rest(s', x) == s.handled + Rest(s, x)
  {
    hide Run, MessagesOf, Pending;
    var y := s.raw + x;
    var p := Run(s.ctx);
    PendingRunAppend(s.ctx, y);
    if p.phase == Done {
      PendingDone(p, y);
      PendingRestarted(p, y);
      Assoc(s.handled, [Text(p)], MessagesOf(p.buf[p.index..] + y));
    }
  }

  lemma ClearRest(s: Session, x: seq<byte>)
    requires Ok(s.ctx) && s.ctx.phase != Done
    ensures Ok(Do(s, Clear).ctx) && Rest(Do(s, Clear), x) == Rest(s, x)
  {
    ClearIsTransparent(s.ctx, s.raw + x);
  }

  lemma DoRest(s: Session, e: Event, x: seq<byte>)
    requires Inv(s) && !Do(s, e).lost
    ensures var s' := Do(s, e); Ok(s'.ctx) && s'.handled + Rest(s', x) == MessagesOf(s'.total + x)
  {
    hide MessagesOf, Pending, Run, Ok;
    assert s.handled + Rest(s, x) == MessagesOf(s.total + x);
    match e
    case Receive(b) => ReceiveRest(s, b, x);
    case Merge => MergeRest(s, x);
    case Analyse => AnalyseRest(s, x);
    case Clear => ClearRest(s, x);
  }

  lemma DoInv(s: Session, e: Event)
    requires Inv(s)
    ensures Inv(Do(s, e))
  {
    hide MessagesOf, Pending, Run;
    var s' := Do(s, e);
    if e == Clear {
      ClearIsTransparent(s.ctx, []);
    }
    if !s'.lost {
      forall x
        ensures s'.handled + Rest(s', x) == MessagesOf(s'.total + x)
      {
        DoRest(s, e, x);
      }
    }
  }

  function RunEvents(s: Session, events: seq<Event>): Session
    requires Ok(s.ctx)
    decreases |events|
  {
    if events == [] then s
    else
      DoOk(s, events[0]);
      RunEvents(Do(s, events[0]), events[1..])
  }

  lemma DoOk(s: Session, e: Event)
    requires Ok(s.ctx)
    ensures Ok(Do(s, e).ctx)
  {
    if e == Clear {
      ClearIsTransparent(s.ctx, []);
    }
  }

  lemma {:induction false} RunInv(s: Session, events: seq<Event>)
    requires Inv(s)
    ensures Inv(RunEvents(s, events))
    decreases |events|
  {
    hide Inv, Do;
    InvOk(s);
    if events != [] {
      DoOk(s, events[0]);
      DoInv(s, events[0]);
      RunInv(Do(s, events[0]), events[1..]);
    }
  }

  lemma InvOk(s: Session)
    requires Inv(s)
    ensures Ok(s.ctx)
  {
  }

  lemma NothingPending(p: Parser)
    requires Ok(p) && !Enabled(p) && p.phase != Done
    ensures Pending(Append(p, [])) == []
  {
    assert p.buf + [] == p.buf;
  }

  /** In every run without overflow the handled messages are the first messages of the stream, in order and each once,
      wherever the packets were cut and wherever the buffer was compacted; and they are all of them when everything
      received has been merged and read. */
  lemma SessionDeliversStream(limit: nat, events: seq<Event>)
    ensures Ok(Initial(limit).ctx)
    ensures var s := RunEvents(Initial(limit), events); !s.lost ==>
      (s.handled <= MessagesOf(s.total) && (s.raw == [] && !Enabled(s.ctx) ==> s.handled == MessagesOf(s.total)))
  {
    hide MessagesOf, Pending;
    InitialInv(limit);
    RunInv(Initial(limit), events);
    var s := RunEvents(Initial(limit), events);
    if !s.lost {
      assert s.total + [] == s.total && s.raw + [] == s.raw;
      assert s.handled + Rest(s, []) == MessagesOf(s.total + []);
      if s.raw == [] && !Enabled(s.ctx) {
        NothingPending(s.ctx);
      }
    }
  }

  /** Messages joined by white space, cut into any packets, are handled exactly as they were sent. */
  lemma MessagesArriveIntact(limit: nat, events: seq<Event>, items: seq<Item>, gap: seq<byte>)
    requires ItemsOk(items) && AllSpace(gap)
    ensures Ok(Initial(limit).ctx)
    ensures var s := RunEvents(Initial(limit), events);
      !s.lost && s.total == Join(items) + gap && s.raw == [] && !Enabled(s.ctx) ==> s.handled == Texts(items)
  {
    hide RunEvents, MessagesOf, Join, Texts;
    SessionDeliversStream(limit, events);
    JsonRoundTrip(items, gap);
    SpacesOnly(gap);
    assert Texts(items) + [] == Texts(items);
  }

  lemma SpacesOnly(gap: seq<byte>)
    requires AllSpace(gap)
    ensures MessagesOf(gap) == []
  {
    ScanSpaces(gap, 0, |gap|);
    assert Fresh(gap) == Fresh(gap).(index := 0);
  }

  /** What is held never exceeds what has arrived, so only a stream over the limit can be lost. */
  predicate Held(s: Session) {
    && |s.ctx.buf| + |s.raw| <= |s.total|
    && (s.lost ==> |s.total| > s.limit)
  }

  lemma DoHeld(s: Session, e: Event)
    requires Ok(s.ctx) && Held(s)
    ensures Held(Do(s, e)) && Do(s, e).limit == s.limit
  {
    if e == Clear {
      ClearIsTransparent(s.ctx, []);
    }
  }

  lemma {:induction false} RunHeld(s: Session, events: seq<Event>)
    requires Ok(s.ctx) && Held(s)
    ensures Held(RunEvents(s, events)) && RunEvents(s, events).limit == s.limit
    decreases |events|
  {
    hide Held, Do, Ok;
    if events != [] {
      DoOk(s, events[0]);
      DoHeld(s, events[0]);
      RunHeld(Do(s, events[0]), events[1..]);
    }
  }

  lemma LongStreamIsLost(t: seq<byte>, limit: nat)
    requires |t| > limit
    ensures Ok(Initial(limit).ctx)
    ensures var s := RunEvents(Initial(limit), [Receive(t), Merge]); s.total == t && s.lost
  {
    var s := Initial(limit);
    var events := [Receive(t), Merge];
    assert events[1..] == [Merge] && [Merge][1..] == [];
    assert [] + t == t;
    var r := Do(s, Receive(t));
    DoOk(s, Receive(t));
    assert RunEvents(s, events) == RunEvents(r, [Merge]);
    assert RunEvents(r, [Merge]) == RunEvents(Do(r, Merge), []);
  }

  /** No run on a stream overflows exactly if the whole stream fits into the limit. */
  lemma LostIff(t: seq<byte>, limit: nat)
    ensures Ok(Initial(limit).ctx)
    ensures (forall events :: RunEvents(Initial(limit), events).total == t ==> !RunEvents(Initial(limit), events).lost)
      <==> |t| <= limit
  {
    if |t| > limit {
      LongStreamIsLost(t, limit);
    } else {
      forall events | RunEvents(Initial(limit), events).total == t
        ensures !RunEvents(Initial(limit), events).lost
      {
        RunHeld(Initial(limit), events);
      }
    }
  }
}
