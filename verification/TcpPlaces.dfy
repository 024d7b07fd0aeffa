/** Where every event takes a connection: the transitions between the places of an object as a table, and the proof that
    the pool follows it in every reachable state. */
module TcpPlaces {
  import opened TcpLifecycles

  /** The table. `mine`: the event is about this object. `last`: the other handle of the object has been closed. */
  function Next(from: Place, mine: bool, last: bool, e: Event): Place {
    if e.Exit? then (if from == Connecting || from == Mapped then Closing else from)
    else if !mine then from
    else
      match e
      case DropLocal(_) => Closing
      case StartConnect(_) => Connecting
      case ConnectDone(_, ok) => if from != Connecting then from else if ok then Mapped else Closing
      case Startup(_) => Mapped
      case Failed(_) => if from == Mapped then Closing else from
      case Timeout(_, kill) => if from == Mapped && kill then Closing else from
      case WriteDone(_, ok) => if from == Mapped && !ok then Closing else from
      case CloseRequest(_, force, how) =>
        if from != Mapped then from else if force || how == Refused then Closing else ShuttingDown
      case ShutdownDone(_) => Closing
      case TcpClosed(_) => if last then Gone else Closing
      case TimerClosed(_) => if last then Gone else Closing
      case _ => from
  }

  predicate Mine(p: Pool, s: Ref, e: Event)
    requires s in p.objs
  {
    s in Object(e) || (e.CloseRequest? && e.id == p.objs[s].id)
  }

  /** The close callback of the event is the last one of the object. */
  predicate Last(p: Pool, s: Ref, e: Event)
    requires s in p.objs
  {
    (e.TcpClosed? && !p.objs[s].timerCloseDue) || (e.TimerClosed? && !p.objs[s].tcpCloseDue)
  }

  /** The event takes the object where the table says; the user is told of its startup exactly when it gets into the
      stream map, and of its shutdown exactly when pool exit finds it there. */
  predicate Follows(p: Pool, e: Event, s: Ref)
    requires s in p.objs && Can(p, e)
  {
    var q := Do(p, e);
    && s in q.objs
    && PlaceOf(q, s) == Next(PlaceOf(p, s), Mine(p, s, e), Last(p, s, e), e)
    && q.objs[s].startups == p.objs[s].startups + (if PlaceOf(p, s) != Mapped && PlaceOf(q, s) == Mapped then 1 else 0)
    && q.objs[s].stops == p.objs[s].stops + (if e.Exit? && PlaceOf(p, s) == Mapped then 1 else 0)
  }

  /** In `q` the object is at a place, and the user was told so often more of its startup and of its shutdown. */
  predicate Goes(p: Pool, q: Pool, s: Ref, to: Place, ups: nat, downs: nat)
    requires s in p.objs
  {
    && s in q.objs && PlaceOf(q, s) == to
    && q.objs[s].startups == p.objs[s].startups + ups && q.objs[s].stops == p.objs[s].stops + downs
  }

  /** All that is known of an object by its place. */
  lemma Known(p: Pool, s: Ref)
    requires Inv(p) && s in p.objs
    ensures TcpOk(p.objs[s]) && OnePlace(p, s)
    ensures InMap(p, s) <==> p.objs[s].id in p.mapped
    ensures InConnecting(p, s) <==> p.objs[s].id in p.connecting
  {
    assert ObjectOk(p, s);
    Leads(p, s);
  }

  lemma Named(p: Pool, r: Ref)
    requires Inv(p) && (r in p.local || r in p.inFlight)
    ensures r in p.objs
  {
  }

  /** Another object has another id. */
  lemma OtherId(p: Pool, r: Ref, s: Ref)
    requires Inv(p) && r in p.objs && s in p.objs && r != s
    ensures p.objs[r].id != p.objs[s].id
  {
  }

  lemma Untouched(p: Pool, q: Pool, s: Ref)
    requires s in p.objs && SameFor(p, q, s)
    ensures Goes(p, q, s, PlaceOf(p, s), 0, 0)
  {
  }

  lemma ShutGoes(p: Pool, id: Id, s: Ref)
    requires Inv(p) && s in p.objs
    ensures Goes(p, Shut(p, id), s,
                 if PlaceOf(p, s) == Mapped && p.objs[s].id == id then Closing else PlaceOf(p, s), 0, 0)
  {
    hide Inv;
    Known(p, s);
    if id in p.mapped {
      Unmapped(p, id);
      if p.mapped[id] != s {
        OtherId(p, p.mapped[id], s);
        Untouched(p, Shut(p, id), s);
      }
    }
  }

  lemma GracefulGoes(p: Pool, id: Id, how: Graceful, s: Ref)
    requires Inv(p) && s in p.objs
    ensures Goes(p, ShutGracefully(p, id, how), s,
                 if PlaceOf(p, s) != Mapped || p.objs[s].id != id then PlaceOf(p, s)
                 else if how == Refused then Closing else ShuttingDown, 0, 0)
  {
    hide Inv;
    Known(p, s);
    if id in p.mapped {
      Unmapped(p, id);
      InMapNotShut(p, p.mapped[id]);
      if p.mapped[id] != s {
        OtherId(p, p.mapped[id], s);
        Untouched(p, ShutGracefully(p, id, how), s);
      }
    }
  }

  lemma InsertOther(p: Pool, r: Ref, toConnecting: bool, s: Ref)
    requires s in p.objs && r != s && (r in p.objs ==> p.objs[r].id != p.objs[s].id)
    ensures SameFor(p, Insert(p, r, toConnecting), s)
  {
  }

  lemma SameThrough(p: Pool, m: Pool, q: Pool, s: Ref)
    requires s in p.objs && SameFor(p, m, s) && SameFor(m, q, s)
    ensures SameFor(p, q, s)
  {
  }

  lemma ConnectFollows(p: Pool, r: Ref, ok: bool, s: Ref)
    requires Inv(p) && Can(p, ConnectDone(r, ok)) && s in p.objs
    ensures Follows(p, ConnectDone(r, ok), s)
  {
    hide Inv;
    ConnectFinds(p, r);
    if r == s {
      OwnConnect(p, r, ok);
    } else {
      OtherId(p, r, s);
      var q := Do(p, ConnectDone(r, ok));
      assert SameFor(p, q, s);
      Untouched(p, q, s);
      hide PlaceOf, SameFor;
    }
  }

  lemma OwnConnect(p: Pool, r: Ref, ok: bool)
    requires Inv(p) && Can(p, ConnectDone(r, ok)) && r in p.objs
    ensures Follows(p, ConnectDone(r, ok), r)
  {
    hide Inv;
    ConnectFinds(p, r);
    Known(p, r);
    if InConnecting(p, r) {
      ConnectPlaces(p, r, ok);
      LocalNotShut(p, r);
      var q := Do(p, ConnectDone(r, ok));
      assert q.objs[r].stops == p.objs[r].stops;
      hide AfterConnect;
    }
  }

  lemma StartupFollows(p: Pool, r: Ref, s: Ref)
    requires Inv(p) && Can(p, Startup(r)) && s in p.objs
    ensures Follows(p, Startup(r), s)
  {
    hide Inv;
    var m, q := p.(local := p.local - {r}), Do(p, Startup(r));
    Named(p, r);
    Known(p, r);
    if r == s {
      StartupMaps(p, r);
    } else {
      OtherId(p, r, s);
      InsertOther(m, r, false, s);
      assert SameFor(p, m, s);
      SameThrough(p, m, q, s);
      Untouched(p, q, s);
      hide PlaceOf, SameFor, Insert;
    }
  }

  lemma StartConnectFollows(p: Pool, r: Ref, s: Ref)
    requires Inv(p) && Can(p, StartConnect(r)) && s in p.objs
    ensures Follows(p, StartConnect(r), s)
  {
    hide Inv;
    var m, q := p.(local := p.local - {r}, connects := p.connects + {r}), Do(p, StartConnect(r));
    Named(p, r);
    Known(p, r);
    if r == s {
      StartConnectInv(p, r);
    } else {
      OtherId(p, r, s);
      InsertOther(m, r, true, s);
      assert SameFor(p, m, s);
      SameThrough(p, m, q, s);
      Untouched(p, q, s);
      hide PlaceOf, SameFor, Insert;
    }
  }

  lemma DropLocalFollows(p: Pool, r: Ref, s: Ref)
    requires Inv(p) && Can(p, DropLocal(r)) && s in p.objs
    ensures Follows(p, DropLocal(r), s)
  {
    hide Inv;
    Named(p, r);
    Known(p, r);
    if r != s {
      assert SameFor(p, Do(p, DropLocal(r)), s);
      Untouched(p, Do(p, DropLocal(r)), s);
      hide PlaceOf, SameFor;
    }
  }

  /** The pool with one write less under way. */
  function Written(p: Pool, r: Ref): Pool
    requires r in p.objs && p.objs[r].writes > 0
  {
    p.(objs := p.objs[r := p.objs[r].(writes := p.objs[r].writes - 1)])
  }

  lemma WrittenPlace(p: Pool, r: Ref, s: Ref)
    requires r in p.objs && p.objs[r].writes > 0 && s in p.objs
    ensures Goes(p, Written(p, r), s, PlaceOf(p, s), 0, 0) && Written(p, r).objs[s].id == p.objs[s].id
  {
  }

  lemma WriteGoes(p: Pool, r: Ref, s: Ref)
    requires Inv(p) && r in p.objs && p.objs[r].writes > 0 && s in p.objs
    ensures Goes(p, Shut(Written(p, r), p.objs[r].id), s,
                 if PlaceOf(p, s) == Mapped && r == s then Closing else PlaceOf(p, s), 0, 0)
  {
    hide Inv;
    WriteFacts(p, r);
    WritesInv(p, r, p.objs[r].writes - 1);
    WrittenPlace(p, r, s);
    if r != s {
      OtherId(p, r, s);
    }
    hide PlaceOf, Shut;
    ShutGoes(Written(p, r), p.objs[r].id, s);
  }

  lemma WriteFollows(p: Pool, r: Ref, ok: bool, s: Ref)
    requires Inv(p) && Can(p, WriteDone(r, ok)) && s in p.objs
    ensures Follows(p, WriteDone(r, ok), s)
  {
    hide Inv;
    WriteGoes(p, r, s);
    WrittenPlace(p, r, s);
    hide PlaceOf, Shut;
  }

  lemma StartWriteFollows(p: Pool, r: Ref, s: Ref)
    requires Inv(p) && Can(p, StartWrite(r)) && s in p.objs
    ensures Follows(p, StartWrite(r), s)
  {
    hide Inv;
  }

  lemma ShutdownDoneFollows(p: Pool, r: Ref, s: Ref)
    requires Inv(p) && Can(p, ShutdownDone(r)) && s in p.objs
    ensures Follows(p, ShutdownDone(r), s)
  {
    hide Inv;
    Known(p, s);
    if r != s {
      assert SameFor(p, Do(p, ShutdownDone(r)), s);
      Untouched(p, Do(p, ShutdownDone(r)), s);
      hide PlaceOf, SameFor;
    }
  }

  /** The close callbacks: a deletion can be told from the object alone. */
  lemma ClosedFollows(p: Pool, r: Ref, e: Event, t: Tcp, s: Ref)
    requires Inv(p) && Can(p, e) && s in p.objs && r in p.objs && p.objs[r].closing && Object(e) == {r}
    requires Do(p, e) == p.(objs := p.objs[r := t]) && t.id == p.objs[r].id && t.closing
    requires t.startups == p.objs[r].startups && t.stops == p.objs[r].stops
    requires PlaceOf(p, r) == Closing && (t.deletions > 0 <==> Last(p, r, e)) && (e.TcpClosed? || e.TimerClosed?)
    ensures Follows(p, e, s)
  {
    hide Inv;
    hide Do, Can;
  }

  lemma TcpClosedFollows(p: Pool, r: Ref, s: Ref)
    requires Inv(p) && Can(p, TcpClosed(r)) && s in p.objs
    ensures Follows(p, TcpClosed(r), s)
  {
    hide Inv;
    Known(p, r);
    ClosedFollows(p, r, TcpClosed(r), AfterTcpClosed(p.objs[r]), s);
    hide Follows;
  }

  lemma TimerClosedFollows(p: Pool, r: Ref, s: Ref)
    requires Inv(p) && Can(p, TimerClosed(r)) && s in p.objs
    ensures Follows(p, TimerClosed(r), s)
  {
    hide Inv;
    Known(p, r);
    ClosedFollows(p, r, TimerClosed(r), AfterTimerClosed(p.objs[r]), s);
    hide Follows;
  }

  lemma ExitFollows(p: Pool, s: Ref)
    requires Inv(p) && Can(p, Exit) && s in p.objs
    ensures Follows(p, Exit, s)
  {
    hide Inv;
    Known(p, s);
    ValuesAre(p, s);
  }

  lemma AllocFollows(p: Pool, r: Ref, tcpOk: bool, timerOk: bool, s: Ref)
    requires Can(p, Alloc(r, tcpOk, timerOk)) && s in p.objs
    ensures Follows(p, Alloc(r, tcpOk, timerOk), s)
  {
    Untouched(p, Do(p, Alloc(r, tcpOk, timerOk)), s);
  }

  lemma FailedFollows(p: Pool, r: Ref, s: Ref)
    requires Inv(p) && Can(p, Failed(r)) && s in p.objs
    ensures Follows(p, Failed(r), s)
  {
    hide Inv;
    if r != s {
      OtherId(p, r, s);
    }
    ShutGoes(p, p.objs[r].id, s);
    hide Shut, PlaceOf;
  }

  lemma TimeoutFollows(p: Pool, r: Ref, kill: bool, s: Ref)
    requires Inv(p) && Can(p, Timeout(r, kill)) && s in p.objs
    ensures Follows(p, Timeout(r, kill), s)
  {
    hide Inv;
    if r != s {
      OtherId(p, r, s);
    }
    ShutGoes(p, p.objs[r].id, s);
    hide Shut, PlaceOf;
  }

  lemma CloseFollows(p: Pool, id: Id, force: bool, how: Graceful, s: Ref)
    requires Inv(p) && s in p.objs
    ensures Follows(p, CloseRequest(id, force, how), s)
  {
    hide Inv;
    ShutGoes(p, id, s);
    GracefulGoes(p, id, how, s);
    hide Shut, ShutGracefully, PlaceOf;
  }

  lemma OtherFollows(p: Pool, s: Ref)
    requires s in p.objs
    ensures Follows(p, OtherSocket, s)
  {
  }

  /** In every reachable state every event takes every object exactly where the table says. */
  lemma PlacesFollowTable(events: seq<Event>, p: Pool, e: Event, s: Ref)
    requires Reaches(Initial(), events, p) && Can(p, e) && s in p.objs
    ensures Follows(p, e, s)
  {
    UniqueOwner(events, p);
    hide Reaches, Inv, Follows;
    match e
    case Alloc(r, tcpOk, timerOk) => AllocFollows(p, r, tcpOk, timerOk, s);
    case OtherSocket => OtherFollows(p, s);
    case DropLocal(r) => DropLocalFollows(p, r, s);
    case StartConnect(r) => StartConnectFollows(p, r, s);
    case Startup(r) => StartupFollows(p, r, s);
    case ConnectDone(r, ok) => ConnectFollows(p, r, ok, s);
    case Failed(r) => FailedFollows(p, r, s);
    case Timeout(r, kill) => TimeoutFollows(p, r, kill, s);
    case WriteDone(r, ok) => WriteFollows(p, r, ok, s);
    case CloseRequest(id, force, how) => CloseFollows(p, id, force, how, s);
    case StartWrite(r) => StartWriteFollows(p, r, s);
    case ShutdownDone(r) => ShutdownDoneFollows(p, r, s);
    case TcpClosed(r) => TcpClosedFollows(p, r, s);
    case TimerClosed(r) => TimerClosedFollows(p, r, s);
    case Exit => ExitFollows(p, s);
  }

  /** A new object is held by its pointer if both handles could be initialised, is about to be closed if only the stream
      could, and is deleted at once otherwise. */
  lemma NewPlace(events: seq<Event>, p: Pool, r: Ref, tcpOk: bool, timerOk: bool)
    requires Reaches(Initial(), events, p) && Can(p, Alloc(r, tcpOk, timerOk))
    ensures var q := Do(p, Alloc(r, tcpOk, timerOk));
      && r in q.objs && PlaceOf(q, r) == (if !tcpOk then Gone else if timerOk then Local else Closing)
      && q.objs[r].startups == 0 && q.objs[r].stops == 0
      && forall s :: s in p.objs ==> q.objs[r].id > p.objs[s].id
  {
    hide Reaches;
    ReachesInv(Initial(), events, p);
    forall s | s in p.objs
      ensures p.objs[s].id <= p.counter
    {
      IdBelow(p, s);
    }
  }

  /** A connect callback: over all reachable states, success starts the connection up and any failure closes it. */
  lemma ConnectOutcome(events: seq<Event>, p: Pool, r: Ref, ok: bool)
    requires Reaches(Initial(), events, p) && Can(p, ConnectDone(r, ok)) && InConnecting(p, r)
    ensures var q := Do(p, ConnectDone(r, ok));
      && r in q.objs && PlaceOf(q, r) == (if ok then Mapped else Closing)
      && q.objs[r].startups == (if ok then 1 else 0)
  {
    hide Reaches;
    ReachesInv(Initial(), events, p);
    ConnectPlaces(p, r, ok);
  }
}
