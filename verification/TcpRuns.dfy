/** Three things the pool does not do for every connection, each with a run that shows it and its exact condition: end a
    graceful shutdown on a timeout, tell the user of the shutdown, and free the connect request. */
module TcpRuns {
  import opened TcpLifecycles

  lemma {:induction false} OneMore(p: Pool, events: seq<Event>, q: Pool, e: Event)
    requires Reaches(p, events, q) && Can(q, e)
    ensures Reaches(p, events + [e], Do(q, e))
    decreases |events|
  {
    hide Can, Do;
    if events == [] {
      assert ([] + [e])[1..] == [];
    } else {
      assert (events + [e])[1..] == events[1..] + [e];
      OneMore(Do(p, events[0]), events[1..], q, e);
    }
  }

  lemma Then(events: seq<Event>, p: Pool, e: Event) returns (events': seq<Event>, p': Pool)
    requires Reaches(Initial(), events, p) && Can(p, e)
    ensures Reaches(Initial(), events', p') && p' == Do(p, e)
  {
    OneMore(Initial(), events, p, e);
    events', p' := events + [e], Do(p, e);
  }

  /** The pool with one object. */
  function Single(r: Ref, t: Tcp): Pool {
    Initial().(objs := map[r := t], counter := 1)
  }

  lemma Allocated(r: Ref) returns (events: seq<Event>, p: Pool)
    ensures Reaches(Initial(), events, p) && p == Single(r, NewTcp(1, true, true)).(local := {r})
  {
    events, p := Then([], Initial(), Alloc(r, true, true));
    assert {} + {r} == {r};
  }

  lemma Running(r: Ref) returns (events: seq<Event>, p: Pool)
    ensures Reaches(Initial(), events, p) && p == Single(r, Started(NewTcp(1, true, true))).(mapped := map[1 := r])
  {
    hide Reaches;
    events, p := Allocated(r);
    events, p := Then(events, p, Startup(r));
    assert {r} - {r} == {};
  }

  /** A connection in its graceful shutdown whose timer fires: nothing happens. */
  lemma TimeoutLeavesShutdown(r: Ref) returns (events: seq<Event>, p: Pool)
    ensures Reaches(Initial(), events, p)
    ensures r in p.objs && PlaceOf(p, r) == ShuttingDown
    ensures Can(p, Timeout(r, true)) && Do(p, Timeout(r, true)) == p
  {
    hide Reaches;
    events, p := Running(r);
    events, p := Then(events, p, CloseRequest(1, false, UnderWay));
  }

  /** A running connection whose timeout callback answers that it is not to be killed: it goes on running. */
  lemma SurvivesTimeout(r: Ref) returns (events: seq<Event>, p: Pool)
    ensures Reaches(Initial(), events, p)
    ensures r in p.objs && PlaceOf(p, r) == Mapped && Can(p, Timeout(r, false)) && Do(p, Timeout(r, false)) == p
  {
    hide Reaches;
    events, p := Running(r);
  }

  /** A timeout ends a connection exactly if the user says so and it is in the stream map when the timer fires. */
  lemma TimeoutEndsIffMapped(events: seq<Event>, p: Pool, r: Ref, kill: bool)
    requires Reaches(Initial(), events, p) && Can(p, Timeout(r, kill))
    ensures r in Do(p, Timeout(r, kill)).objs
    ensures PlaceOf(Do(p, Timeout(r, kill)), r) == Closing <==> kill && PlaceOf(p, r) == Mapped
  {
    hide Reaches;
    TimeoutOnlyClosesMapped(events, p, r, kill);
    ReachesInv(Initial(), events, p);
    assert ObjectOk(p, r);
  }

  /** A connection that was started, closed by force and deleted: pool exit tells the user nothing about it. */
  lemma StartedNeverStopped(r: Ref) returns (events: seq<Event>, p: Pool)
    ensures Reaches(Initial(), events, p) && p.exited
    ensures r in p.objs && p.objs[r].startups == 1 && p.objs[r].stops == 0 && p.objs[r].deletions == 1
  {
    hide Reaches;
    events, p := Running(r);
    events, p := Then(events, p, CloseRequest(1, true, Refused));
    events, p := Then(events, p, TcpClosed(r));
    events, p := Then(events, p, TimerClosed(r));
    events, p := Then(events, p, Exit);
  }

  predicate SameStops(p: Pool, q: Pool) {
    forall r :: r in p.objs ==> r in q.objs && q.objs[r].stops == p.objs[r].stops
  }

  lemma CloseStops(p: Pool, r: Ref)
    ensures SameStops(p, CloseRef(p, r))
  {
  }

  lemma InsertStops(p: Pool, r: Ref, toConnecting: bool)
    ensures SameStops(p, Insert(p, r, toConnecting))
  {
  }

  lemma ShutStops(p: Pool, id: Id, how: Graceful)
    ensures SameStops(p, Shut(p, id)) && SameStops(p, ShutGracefully(p, id, how))
  {
    hide CloseRef;
    if id in p.mapped {
      CloseStops(p.(mapped := p.mapped - {id}), p.mapped[id]);
    }
  }

  lemma ConnectStops(p: Pool, r: Ref, ok: bool)
    ensures SameStops(p, AfterConnect(p, r, ok))
  {
    hide CloseRef, Insert;
    if r in p.objs && p.objs[r].id in p.connecting {
      var id := p.objs[r].id;
      var q := p.(connecting := p.connecting - {id}, freed := p.freed + {r});
      CloseStops(q, p.connecting[id]);
      InsertStops(q, p.connecting[id], false);
    }
  }

  lemma FieldStops(p: Pool, e: Event)
    requires Can(p, e) && (e.Alloc? || e.OtherSocket? || e.StartWrite? || e.TcpClosed? || e.TimerClosed?)
    ensures SameStops(p, Do(p, e))
  {
  }

  lemma WriteStops(p: Pool, r: Ref, n: nat)
    requires r in p.objs
    ensures SameStops(p, p.(objs := p.objs[r := p.objs[r].(writes := n)]))
  {
  }

  /** Nothing but exit tells anybody of a shutdown. */
  lemma StopStep(p: Pool, e: Event)
    requires Can(p, e) && e != Exit
    ensures SameStops(p, Do(p, e))
  {
    hide CloseRef, Insert, Shut, ShutGracefully, AfterConnect;
    match e
    case DropLocal(r) => CloseStops(p.(local := p.local - {r}), r);
    case StartConnect(r) => InsertStops(p.(local := p.local - {r}, connects := p.connects + {r}), r, true);
    case ConnectDone(r, ok) => ConnectStops(p.(connects := p.connects - {r}), r, ok);
    case Startup(r) => InsertStops(p.(local := p.local - {r}), r, false);
    case Failed(r) => ShutStops(p, p.objs[r].id, Refused);
    case Timeout(r, _) => ShutStops(p, p.objs[r].id, Refused);
    case WriteDone(r, _) =>
      hide SameStops;
      var q := p.(objs := p.objs[r := p.objs[r].(writes := p.objs[r].writes - 1)]);
      WriteStops(p, r, p.objs[r].writes - 1);
      ShutStops(q, p.objs[r].id, Refused);
      SameStopsOn(p, q, Shut(q, p.objs[r].id));
    case CloseRequest(id, _, how) => ShutStops(p, id, how);
    case ShutdownDone(r) => CloseStops(p.(inFlight := p.inFlight - {r}), r);
    case _ => FieldStops(p, e);
  }

  lemma SameStopsOn(p: Pool, q: Pool, q': Pool)
    requires SameStops(p, q) && SameStops(q, q')
    ensures SameStops(p, q')
  {
  }

  lemma ExitStops(p: Pool, r: Ref)
    requires Inv(p) && Can(p, Exit) && r in p.objs
    ensures r in Do(p, Exit).objs && Do(p, Exit).objs[r].stops == if InMap(p, r) then 1 else 0
  {
    ValuesAre(p, r);
    assert ObjectOk(p, r);
  }

  lemma {:induction false} NoStopAfterExit(p: Pool, events: seq<Event>, q: Pool, r: Ref)
    requires Inv(p) && p.exited && Reaches(p, events, q) && r in p.objs
    ensures q.exited && r in q.objs && q.objs[r].stops == p.objs[r].stops
    decreases |events|
  {
    hide Inv, Do;
    if events != [] {
      DoInv(p, events[0]);
      StopStep(p, events[0]);
      StaysExited(p, events[0]);
      NoStopAfterExit(Do(p, events[0]), events[1..], q, r);
    }
  }

  lemma StaysExited(p: Pool, e: Event)
    requires p.exited && Can(p, e)
    ensures Do(p, e).exited
  {
  }

  /** The user is told of the shutdown of a connection once if it is in the stream map when the pool exits, and never
      otherwise: not when it was closed before, by whom ever, and not when it is in its graceful shutdown. */
  lemma StoppedIffRunningAtExit(before: seq<Event>, p: Pool, after: seq<Event>, q: Pool, r: Ref)
    requires Reaches(Initial(), before, p) && Can(p, Exit) && Reaches(Do(p, Exit), after, q) && r in p.objs
    ensures r in q.objs && q.objs[r].stops == if PlaceOf(p, r) == Mapped then 1 else 0
  {
    hide Reaches;
    ReachesInv(Initial(), before, p);
    DoInv(p, Exit);
    ExitStops(p, r);
    NoStopAfterExit(Do(p, Exit), after, q, r);
    assert ObjectOk(p, r);
  }

  /** Before exit nobody is told of a shutdown. */
  lemma NoStopBeforeExit(events: seq<Event>, p: Pool, r: Ref)
    requires Reaches(Initial(), events, p) && !p.exited && r in p.objs
    ensures p.objs[r].stops == 0 && p.objs[r].startups <= 1
  {
    hide Reaches;
    ReachesInv(Initial(), events, p);
    assert ObjectOk(p, r);
  }

  /** A connect that completes after exit: its request is never freed. */
  lemma ConnectRequestLeaks(r: Ref) returns (events: seq<Event>, p: Pool)
    ensures Reaches(Initial(), events, p) && r in p.leaked && r !in p.freed && r !in p.connects
  {
    hide Reaches;
    events, p := Allocated(r);
    events, p := Then(events, p, StartConnect(r));
    events, p := Then(events, p, Exit);
    events, p := Then(events, p, ConnectDone(r, false));
  }

  /** The connect callback frees its request exactly if exit has not emptied the connecting map before; otherwise it
      returns early and the request is leaked. */
  lemma ConnectRequestFreedIff(events: seq<Event>, p: Pool, r: Ref, ok: bool)
    requires Reaches(Initial(), events, p) && Can(p, ConnectDone(r, ok))
    ensures r in Do(p, ConnectDone(r, ok)).freed <==> !p.exited
    ensures r in Do(p, ConnectDone(r, ok)).leaked <==> p.exited
  {
    hide Reaches;
    ReachesInv(Initial(), events, p);
    ConnectFinds(p, r);
    ConnectPending(p, r);
    hide Inv, Open, Closed;
  }

  lemma ConnectPending(p: Pool, r: Ref)
    requires Inv(p) && r in p.connects
    ensures r in p.objs && (InConnecting(p, r) <==> !p.exited) && r !in p.freed && r !in p.leaked
  {
    assert ObjectOk(p, r);
  }

  /** User callbacks still come when the pool has exited: the drop of a write that exit has cancelled. */
  lemma DropBehindExit(r: Ref) returns (events: seq<Event>, p: Pool)
    ensures Reaches(Initial(), events, p) && p.exited && Can(p, WriteDone(r, false))
  {
    hide Reaches;
    events, p := Running(r);
    events, p := Then(events, p, StartWrite(r));
    events, p := Then(events, p, Exit);
  }

  /** And the timeout of a connection whose graceful shutdown exit has not ended. */
  lemma TimeoutBehindExit(r: Ref) returns (events: seq<Event>, p: Pool)
    ensures Reaches(Initial(), events, p) && p.exited && Can(p, Timeout(r, true))
  {
    hide Reaches;
    events, p := Running(r);
    events, p := Then(events, p, CloseRequest(1, false, UnderWay));
    events, p := Then(events, p, Exit);
  }
}
