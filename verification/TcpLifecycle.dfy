/** The life of TCP connections on the loop thread of the pool: who owns each Ctcp object, its two handles with their
    close callbacks, and the maps by socket id. One event is one callback of the event loop, or one part of a callback
    between two calls into user code. */
module TcpLifecycles {

  /** An object is named by its address. */
  type Ref = nat
  type Id = nat

  /** A Ctcp object: its fields, the close callbacks and write requests that libuv still owes, the handles that were
      ever initialised, how often the object was deleted, and how often the user was told of its startup and of its
      shutdown. */
  datatype Tcp = Tcp(
    id: Id,
    tcpInited: bool,
    timerInited: bool,
    closing: bool,
    shutdown: bool,
    tcpCloseDue: bool,
    timerCloseDue: bool,
    writes: nat,
    hadTcp: bool,
    hadTimer: bool,
    deletions: nat,
    startups: nat,
    stops: nat)

  /** `local` has the objects held by a unique_ptr of a callback that is still on its way; `connects` and `inFlight`
      have those with a connect or a shutdown request that libuv has not completed; `freed` and `leaked` have those
      whose connect request was freed, or was not when it completed. */
  datatype Pool = Pool(
    objs: map<Ref, Tcp>,
    local: set<Ref>,
    connecting: map<Id, Ref>,
    mapped: map<Id, Ref>,
    connects: set<Ref>,
    inFlight: set<Ref>,
    freed: set<Ref>,
    leaked: set<Ref>,
    counter: Id,
    exited: bool)

  /** How a graceful shutdown starts: no memory or uv_shutdown failed, or it is under way. */
  datatype Graceful = Refused | UnderWay

  datatype Event =
    | Alloc(r: Ref, tcpOk: bool, timerOk: bool)
    | OtherSocket
    | DropLocal(r: Ref)
    | StartConnect(r: Ref)
    | ConnectDone(r: Ref, ok: bool)
    | Startup(r: Ref)
    | Failed(r: Ref)
    | Timeout(r: Ref, kill: bool)
    | StartWrite(r: Ref)
    | WriteDone(r: Ref, ok: bool)
    | CloseRequest(id: Id, force: bool, how: Graceful)
    | ShutdownDone(r: Ref)
    | TcpClosed(r: Ref)
    | TimerClosed(r: Ref)
    | Exit

  /** Ctcp::close. */
  function Closed(t: Tcp): Tcp {
    if t.tcpInited || t.timerInited then
      if t.closing then t else t.(closing := true, tcpCloseDue := t.tcpInited, timerCloseDue := t.timerInited)
    else Deleted(t)
  }

  function Deleted(t: Tcp): Tcp {
    t.(deletions := t.deletions + 1)
  }

  /** The close callback of the stream. */
  function AfterTcpClosed(t: Tcp): Tcp {
    var u := t.(tcpInited := false, tcpCloseDue := false);
    if u.timerInited then u else Deleted(u)
  }

  /** The close callback of the timer. */
  function AfterTimerClosed(t: Tcp): Tcp {
    var u := t.(timerInited := false, timerCloseDue := false);
    if u.tcpInited then u else Deleted(u)
  }

  function NewTcp(id: Id, tcpOk: bool, timerOk: bool): Tcp {
    Tcp(id, tcpOk, tcpOk && timerOk, false, false, false, false, 0, tcpOk, tcpOk && timerOk, 0, 0, 0)
  }

  function CloseRef(p: Pool, r: Ref): Pool {
    if r in p.objs then p.(objs := p.objs[r := Closed(p.objs[r])]) else p
  }

  /** shutdownTcpConnection without a graceful end: the map gives up the object, if it has it, and that closes it. */
  function Shut(p: Pool, id: Id): Pool {
    if id in p.mapped then CloseRef(p.(mapped := p.mapped - {id}), p.mapped[id]) else p
  }

  /** shutdownTcpConnection with a graceful end, which is Ctcp::shutdown_and_close on the object. */
  function ShutGracefully(p: Pool, id: Id, how: Graceful): Pool {
    if id !in p.mapped || p.mapped[id] !in p.objs then p
    else
      var r := p.mapped[id];
      var q := p.(mapped := p.mapped - {id});
      var t := p.objs[r];
      if !t.tcpInited then CloseRef(q, r)
      else if t.closing || t.shutdown then q
      else if how == Refused then CloseRef(q, r)
      else q.(objs := q.objs[r := t.(shutdown := true)], inFlight := q.inFlight + {r})
  }

  predicate Exists(p: Pool, r: Ref) {
    r in p.objs && p.objs[r].deletions == 0
  }

  /** What libuv promises about its callbacks, and what the code before each event makes sure of. A timer that is
      being closed does not fire, and a stream that is being closed is not read; the close callback of a stream comes
      after its connect, write and shutdown callbacks. */
  predicate Can(p: Pool, e: Event) {
    match e
    case Alloc(r, _, _) => r !in p.objs
    case OtherSocket => true
    case DropLocal(r) => r in p.local
    case StartConnect(r) => r in p.local && !p.exited
    case ConnectDone(r, _) => r in p.connects
    case Startup(r) => r in p.local && !p.exited
    case Failed(r) => r in p.objs && p.objs[r].tcpInited && !p.objs[r].closing
    case Timeout(r, _) => r in p.objs && p.objs[r].timerInited && !p.objs[r].closing
    case StartWrite(r) => r in p.objs && p.objs[r].id in p.mapped && p.mapped[p.objs[r].id] == r
    case WriteDone(r, _) => r in p.objs && p.objs[r].writes > 0
    case CloseRequest(_, _, _) => true
    case ShutdownDone(r) => r in p.inFlight
    case TcpClosed(r) =>
      r in p.objs && p.objs[r].tcpCloseDue && r !in p.connects && r !in p.inFlight && p.objs[r].writes == 0
    case TimerClosed(r) => r in p.objs && p.objs[r].timerCloseDue
    case Exit => !p.exited
  }

  function Do(p: Pool, e: Event): Pool
    requires Can(p, e)
  {
    match e
    case Alloc(r, tcpOk, timerOk) =>
      var t := NewTcp(p.counter + 1, tcpOk, timerOk);
      if tcpOk && timerOk then p.(objs := p.objs[r := t], local := p.local + {r}, counter := p.counter + 1)
      else p.(objs := p.objs[r := Closed(t)], counter := p.counter + 1)
    case OtherSocket => p.(counter := p.counter + 1)
    case DropLocal(r) => CloseRef(p.(local := p.local - {r}), r)
    case StartConnect(r) => Insert(p.(local := p.local - {r}, connects := p.connects + {r}), r, true)
    case ConnectDone(r, ok) => AfterConnect(p.(connects := p.connects - {r}), r, ok)
    case Startup(r) => Insert(p.(local := p.local - {r}), r, false)
    case Failed(r) => Shut(p, p.objs[r].id)
    case Timeout(r, kill) => if kill then Shut(p, p.objs[r].id) else p
    case StartWrite(r) => p.(objs := p.objs[r := p.objs[r].(writes := p.objs[r].writes + 1)])
    case WriteDone(r, ok) =>
      var q := p.(objs := p.objs[r := p.objs[r].(writes := p.objs[r].writes - 1)]);
      if ok then q else Shut(q, p.objs[r].id)
    case CloseRequest(id, force, how) => if force then Shut(p, id) else ShutGracefully(p, id, how)
    case ShutdownDone(r) => CloseRef(p.(inFlight := p.inFlight - {r}), r)
    case TcpClosed(r) => p.(objs := p.objs[r := AfterTcpClosed(p.objs[r])])
    case TimerClosed(r) => p.(objs := p.objs[r := AfterTimerClosed(p.objs[r])])
    case Exit => CloseAll(p.(exited := true))
  }

  /** unordered_map::insert: it does nothing if the key is there, and then the pointer closes its object. */
  function Insert(p: Pool, r: Ref, toConnecting: bool): Pool {
    if r !in p.objs then p
    else
      var id := p.objs[r].id;
      if toConnecting then
        if id in p.connecting then CloseRef(p, r) else p.(connecting := p.connecting[id := r])
      else
        if id in p.mapped then CloseRef(p, r)
        else p.(mapped := p.mapped[id := r], objs := p.objs[r := Started(p.objs[r])])
  }

  /** The startup callback and the shutdown callback. */
  function Started(t: Tcp): Tcp {
    t.(startups := t.startups + 1)
  }

  function Stopped(t: Tcp): Tcp {
    t.(stops := t.stops + 1)
  }

  /** The connect callback: nothing is left to do when the map no longer has the id, and then the request is not freed;
      otherwise what the map has under it is started or, on any error, closed. */
  function AfterConnect(p: Pool, r: Ref, ok: bool): Pool {
    if r !in p.objs || p.objs[r].id !in p.connecting then p.(leaked := p.leaked + {r})
    else
      var id := p.objs[r].id;
      var s := p.connecting[id];
      var q := p.(connecting := p.connecting - {id}, freed := p.freed + {r});
      if !ok || s !in p.objs || p.objs[s].closing then CloseRef(q, s) else Insert(q, s, false)
  }

  /** What pool exit does to both maps; only running connections are told. */
  function CloseAll(p: Pool): Pool {
    p.(objs := map r | r in p.objs :: AtExit(p.objs[r], r in p.mapped.Values, r in p.connecting.Values),
       mapped := map[], connecting := map[])
  }

  function AtExit(t: Tcp, running: bool, trying: bool): Tcp {
    if running then Closed(Stopped(t)) else if trying then Closed(t) else t
  }

  function Initial(): Pool {
    Pool(map[], {}, map[], map[], {}, {}, {}, {}, 0, false)
  }

  /** Object by object: close callbacks are due exactly for the handles that are still initialised, once the object is
      closing; it is deleted when no handle is initialised any more, and only once. */
  predicate TcpOk(t: Tcp) {
    && (t.closing ==> t.tcpCloseDue == t.tcpInited && t.timerCloseDue == t.timerInited)
    && (!t.closing ==> !t.tcpCloseDue && !t.timerCloseDue && t.tcpInited == t.hadTcp && t.timerInited == t.hadTimer)
    && t.deletions == (if t.tcpInited || t.timerInited then 0 else 1)
    && (t.tcpInited ==> t.hadTcp) && (t.timerInited ==> t.hadTimer)
    && (!t.tcpInited ==> t.writes == 0)
    && t.stops <= t.startups <= 1
  }

  predicate InConnecting(p: Pool, r: Ref) {
    r in p.objs && p.objs[r].id in p.connecting && p.connecting[p.objs[r].id] == r
  }

  predicate InMap(p: Pool, r: Ref) {
    r in p.objs && p.objs[r].id in p.mapped && p.mapped[p.objs[r].id] == r
  }

  predicate Open(t: Tcp) {
    t.tcpInited && t.timerInited && !t.closing && t.deletions == 0
  }

  /** Where an object is. */
  datatype Place = Local | Connecting | Mapped | ShuttingDown | Closing | Gone

  function PlaceOf(p: Pool, r: Ref): Place
    requires r in p.objs
  {
    if p.objs[r].deletions > 0 then Gone
    else if p.objs[r].closing then Closing
    else if r in p.local then Local
    else if InConnecting(p, r) then Connecting
    else if InMap(p, r) then Mapped
    else ShuttingDown
  }

  /** An object is in exactly one place. */
  predicate OnePlace(p: Pool, r: Ref)
    requires r in p.objs
  {
    var t := p.objs[r];
    && (r in p.local <==> PlaceOf(p, r) == Local)
    && (InConnecting(p, r) <==> PlaceOf(p, r) == Connecting)
    && (InMap(p, r) <==> PlaceOf(p, r) == Mapped)
    && (r in p.inFlight <==> PlaceOf(p, r) == ShuttingDown)
    && (t.shutdown && !t.closing ==> r in p.inFlight)
    && (PlaceOf(p, r) in {Local, Connecting, Mapped, ShuttingDown} ==> Open(t))
    && (r in p.inFlight <==> !t.closing && t.deletions == 0 && t.shutdown)
    && (InConnecting(p, r) ==> r in p.connects)
    && (r in p.connects ==> t.tcpInited && r !in p.local && !InMap(p, r))
    && CallbacksOk(p, r)
  }

  /** The user is told of the startup when the object gets into the map, and of the shutdown at exit if it is there; the
      connect request completes into the connecting map unless exit has emptied it. */
  predicate CallbacksOk(p: Pool, r: Ref)
    requires r in p.objs
  {
    var t := p.objs[r];
    && (r in p.local || InConnecting(p, r) ==> t.startups == 0)
    && (InMap(p, r) ==> t.startups == 1 && t.stops == 0)
    && (t.stops > 0 ==> p.exited)
    && (r in p.connects && !p.exited ==> InConnecting(p, r))
    && (r in p.leaked ==> p.exited)
    && (r in p.freed || r in p.leaked ==> r !in p.connects && r !in p.local)
  }

  predicate ObjectOk(p: Pool, r: Ref)
    requires r in p.objs
  {
    TcpOk(p.objs[r]) && OnePlace(p, r) && p.objs[r].id <= p.counter
  }

  predicate IdsUnique(objs: map<Ref, Tcp>) {
    forall r, s :: r in objs && s in objs && r != s ==> objs[r].id != objs[s].id
  }

  /** The maps and sets name existing objects, each under its own id. */
  predicate NamesOk(p: Pool) {
    && (forall id :: id in p.connecting ==> p.connecting[id] in p.objs && p.objs[p.connecting[id]].id == id)
    && (forall id :: id in p.mapped ==> p.mapped[id] in p.objs && p.objs[p.mapped[id]].id == id)
    && p.local <= p.objs.Keys && p.connects <= p.objs.Keys && p.inFlight <= p.objs.Keys
    && p.freed <= p.objs.Keys && p.leaked <= p.objs.Keys
    && (p.exited ==> p.connecting == map[] && p.mapped == map[])
  }

  predicate Inv(p: Pool) {
    && IdsUnique(p.objs) && NamesOk(p)
    && forall r :: r in p.objs ==> ObjectOk(p, r)
  }

  /** Nothing about `s` differs between `p` and `q`. */
  predicate SameFor(p: Pool, q: Pool, s: Ref)
    requires s in p.objs
  {
    && s in q.objs && q.objs[s] == p.objs[s]
    && (s in q.local <==> s in p.local) && (s in q.connects <==> s in p.connects)
    && (s in q.inFlight <==> s in p.inFlight) && (s in q.freed <==> s in p.freed) && (s in q.leaked <==> s in p.leaked)
    && (InConnecting(q, s) <==> InConnecting(p, s)) && (InMap(q, s) <==> InMap(p, s))
  }

  /** An event that touches one object only has to keep that one in order. */
  lemma OneObject(p: Pool, q: Pool, r: Ref)
    requires Inv(p) && r in p.objs && q.objs.Keys == p.objs.Keys && q.counter >= p.counter && q.exited == p.exited
    requires q.objs[r].id == p.objs[r].id && ObjectOk(q, r) && NamesOk(q)
    requires forall s :: s in p.objs && s != r ==> SameFor(p, q, s)
    ensures Inv(q)
  {
    forall s | s in q.objs
      ensures ObjectOk(q, s)
    {
      if s != r {
        assert ObjectOk(p, s) && SameFor(p, q, s);
      }
    }
  }

  /** The id of a mapped or connecting object leads back to it. */
  lemma Leads(p: Pool, r: Ref)
    requires Inv(p) && r in p.objs
    ensures InMap(p, r) <==> p.objs[r].id in p.mapped
    ensures InConnecting(p, r) <==> p.objs[r].id in p.connecting
  {
  }

  lemma NewOk(q: Pool, r: Ref, tcpOk: bool, timerOk: bool)
    requires r in q.objs && NamesOk(q) && IdsUnique(q.objs) && q.objs[r].id == q.counter
    requires q.objs[r] == if tcpOk && timerOk then NewTcp(q.counter, tcpOk, timerOk)
      else Closed(NewTcp(q.counter, tcpOk, timerOk))
    requires (r in q.local <==> tcpOk && timerOk) && r !in q.connects && r !in q.inFlight
    requires r !in q.freed && r !in q.leaked && r !in q.mapped.Values && r !in q.connecting.Values
    ensures ObjectOk(q, r)
  {
  }

  lemma AllocNames(p: Pool, r: Ref, tcpOk: bool, timerOk: bool)
    requires Inv(p) && Can(p, Alloc(r, tcpOk, timerOk))
    ensures var q := Do(p, Alloc(r, tcpOk, timerOk));
      && NamesOk(q) && IdsUnique(q.objs)
      && r !in q.mapped.Values && r !in q.connecting.Values && r !in q.inFlight && r !in q.connects
  {
    hide ObjectOk;
    forall s | s in p.objs
      ensures p.objs[s].id <= p.counter
    {
      IdBelow(p, s);
    }
  }

  lemma IdBelow(p: Pool, r: Ref)
    requires Inv(p) && r in p.objs
    ensures p.objs[r].id <= p.counter
  {
    assert ObjectOk(p, r);
  }

  lemma AllocOthers(p: Pool, r: Ref, tcpOk: bool, timerOk: bool, s: Ref)
    requires Can(p, Alloc(r, tcpOk, timerOk)) && s in p.objs && ObjectOk(p, s)
    ensures s in Do(p, Alloc(r, tcpOk, timerOk)).objs && ObjectOk(Do(p, Alloc(r, tcpOk, timerOk)), s)
  {
    assert SameFor(p, Do(p, Alloc(r, tcpOk, timerOk)), s);
  }

  lemma AllocInv(p: Pool, r: Ref, tcpOk: bool, timerOk: bool)
    requires Inv(p) && Can(p, Alloc(r, tcpOk, timerOk))
    ensures Inv(Do(p, Alloc(r, tcpOk, timerOk)))
  {
    hide ObjectOk;
    var q := Do(p, Alloc(r, tcpOk, timerOk));
    AllocNames(p, r, tcpOk, timerOk);
    NewOk(q, r, tcpOk, timerOk);
    forall s | s in q.objs
      ensures ObjectOk(q, s)
    {
      if s != r {
        AllocOthers(p, r, tcpOk, timerOk, s);
      }
    }
  }

  /** The connect request of `r` is pending only if it was before and exit has emptied the map, and it is accounted for
      otherwise. */
  predicate Settled(p: Pool, q: Pool, r: Ref) {
    && q.exited == p.exited
    && (r in q.connects ==> r in p.connects && p.exited)
    && (r in q.leaked ==> r in p.leaked || (p.exited && r !in q.connects))
    && (r in q.freed ==> r in p.freed || r !in q.connects)
  }

  lemma ClosedOk(p: Pool, q: Pool, r: Ref)
    requires r in p.objs && ObjectOk(p, r) && Open(p.objs[r]) && q.counter >= p.counter && q.objs == p.objs
    requires r !in q.local && r !in q.inFlight && !InConnecting(q, r) && !InMap(q, r) && Settled(p, q, r)
    ensures ObjectOk(CloseRef(q, r), r) && PlaceOf(CloseRef(q, r), r) == Closing
  {
  }

  lemma CloseInv(p: Pool, q: Pool, r: Ref)
    requires Inv(p) && r in p.objs && Open(p.objs[r]) && q.counter >= p.counter
    requires q.objs == p.objs && NamesOk(q)
    requires r !in q.local && r !in q.inFlight && !InConnecting(q, r) && !InMap(q, r) && Settled(p, q, r)
    requires forall s :: s in p.objs && s != r ==> SameFor(p, q, s)
    ensures Inv(CloseRef(q, r)) && PlaceOf(CloseRef(q, r), r) == Closing
  {
    hide ObjectOk;
    var c := CloseRef(q, r);
    forall s | s in p.objs && s != r
      ensures SameFor(p, c, s)
    {
      assert SameFor(p, q, s);
    }
    ClosedOk(p, q, r);
    hide Inv;
    OneObject(p, c, r);
  }

  lemma OpenPlace(p: Pool, r: Ref)
    requires Inv(p) && r in p.objs
    ensures r in p.local || InConnecting(p, r) || InMap(p, r) || r in p.inFlight ==> Open(p.objs[r])
    ensures r in p.local ==> !InConnecting(p, r) && !InMap(p, r) && r !in p.inFlight && r !in p.connects
    ensures InConnecting(p, r) ==> r !in p.local && !InMap(p, r) && r !in p.inFlight && r in p.connects
    ensures InMap(p, r) ==> r !in p.local && !InConnecting(p, r) && r !in p.inFlight && r !in p.connects
    ensures r in p.inFlight ==> r !in p.local && !InConnecting(p, r) && !InMap(p, r) && (r in p.connects ==> p.exited)
  {
    assert ObjectOk(p, r);
  }

  lemma DropLocalInv(p: Pool, r: Ref)
    requires Inv(p) && Can(p, DropLocal(r))
    ensures Inv(Do(p, DropLocal(r)))
  {
    OpenPlace(p, r);
    CloseInv(p, p.(local := p.local - {r}), r);
  }

  lemma ShutdownDoneInv(p: Pool, r: Ref)
    requires Inv(p) && Can(p, ShutdownDone(r))
    ensures Inv(Do(p, ShutdownDone(r)))
  {
    OpenPlace(p, r);
    CloseInv(p, p.(inFlight := p.inFlight - {r}), r);
  }

  /** Taking an entry out of the map of running connections touches its own object only. */
  lemma Unmapped(p: Pool, id: Id)
    requires Inv(p) && id in p.mapped
    ensures var q := p.(mapped := p.mapped - {id}); var r := p.mapped[id];
      && r in p.objs && InMap(p, r) && NamesOk(q) && !InMap(q, r)
      && (InConnecting(q, r) <==> InConnecting(p, r))
      && forall s :: s in p.objs && s != r ==> SameFor(p, q, s)
  {
  }

  lemma ShutInv(p: Pool, id: Id)
    requires Inv(p)
    ensures Inv(Shut(p, id))
  {
    hide Inv;
    if id in p.mapped {
      Unmapped(p, id);
      OpenPlace(p, p.mapped[id]);
      CloseInv(p, p.(mapped := p.mapped - {id}), p.mapped[id]);
    }
  }

  lemma UnderWayOk(p: Pool, r: Ref)
    requires r in p.objs && ObjectOk(p, r) && InMap(p, r) && Open(p.objs[r]) && !p.objs[r].shutdown
    requires NamesOk(p) && r !in p.connects
    ensures var t := p.objs[r];
      ObjectOk(p.(mapped := p.mapped - {t.id}, objs := p.objs[r := t.(shutdown := true)],
                  inFlight := p.inFlight + {r}), r)
  {
  }

  lemma UnderWayInv(p: Pool, id: Id)
    requires Inv(p) && id in p.mapped && p.mapped[id] in p.objs
    ensures Inv(ShutGracefully(p, id, UnderWay))
  {
    Unmapped(p, id);
    var r := p.mapped[id];
    OpenPlace(p, r);
    InMapNotShut(p, r);
    UnderWayOk(p, r);
    hide ObjectOk;
    hide Inv, SameFor, Open;
    var m := p.(mapped := p.mapped - {id});
    forall s | s in p.objs && s != r
      ensures SameFor(p, ShutGracefully(p, id, UnderWay), s)
    {
      SameBehind(p, m, r, s);
    }
    UnderWayNames(m, r);
    OneObject(p, ShutGracefully(p, id, UnderWay), r);
  }

  lemma SameBehind(p: Pool, m: Pool, r: Ref, s: Ref)
    requires s in p.objs && s != r && r in m.objs && SameFor(p, m, s)
    ensures SameFor(p, m.(objs := m.objs[r := m.objs[r].(shutdown := true)], inFlight := m.inFlight + {r}), s)
  {
  }

  lemma UnderWayNames(m: Pool, r: Ref)
    requires NamesOk(m) && r in m.objs
    ensures NamesOk(m.(objs := m.objs[r := m.objs[r].(shutdown := true)], inFlight := m.inFlight + {r}))
  {
  }

  lemma ShutGracefullyInv(p: Pool, id: Id, how: Graceful)
    requires Inv(p)
    ensures Inv(ShutGracefully(p, id, how))
  {
    hide Inv;
    if id in p.mapped {
      Unmapped(p, id);
      var r := p.mapped[id];
      OpenPlace(p, r);
      InMapNotShut(p, r);
      if how == Refused {
        CloseInv(p, p.(mapped := p.mapped - {id}), r);
      } else {
        UnderWayInv(p, id);
      }
    }
  }

  lemma InMapNotShut(p: Pool, r: Ref)
    requires Inv(p) && r in p.objs && InMap(p, r)
    ensures !p.objs[r].shutdown && !p.objs[r].closing && p.objs[r].tcpInited
  {
    assert ObjectOk(p, r);
  }

  lemma InsertedOk(p: Pool, q: Pool, r: Ref)
    requires r in p.objs && ObjectOk(p, r) && Open(p.objs[r]) && p.objs[r].startups == 0 && !p.exited
    requires !p.objs[r].shutdown && q.objs == p.objs && q.counter == p.counter && p.objs[r].id !in q.mapped
    requires r !in q.local && r !in q.inFlight && !InConnecting(q, r) && r !in q.connects && Settled(p, q, r)
    ensures ObjectOk(Insert(q, r, false), r) && InMap(Insert(q, r, false), r)
  {
  }

  lemma InsertedSame(p: Pool, q: Pool, r: Ref)
    requires IdsUnique(p.objs) && r in p.objs && q.objs == p.objs && NamesOk(q)
    requires p.objs[r].id !in q.mapped && !q.exited
    requires forall s :: s in p.objs && s != r ==> SameFor(p, q, s)
    ensures var c := Insert(q, r, false);
      NamesOk(c) && forall s :: s in p.objs && s != r ==> SameFor(p, c, s)
  {
    var c := Insert(q, r, false);
    forall s | s in p.objs && s != r
      ensures SameFor(p, c, s)
    {
      assert SameFor(p, q, s) && p.objs[s].id != p.objs[r].id;
    }
  }

  /** Ids are unique, so an insertion into a map never meets its key. */
  lemma InsertMapped(p: Pool, q: Pool, r: Ref)
    requires Inv(p) && r in p.objs && Open(p.objs[r]) && !p.objs[r].shutdown && p.objs[r].startups == 0 && !p.exited
    requires q.objs == p.objs && NamesOk(q) && q.mapped == p.mapped && q.counter == p.counter
    requires r !in q.local && r !in q.inFlight && !InConnecting(q, r) && !InMap(p, r) && r !in q.connects
    requires Settled(p, q, r)
    requires forall s :: s in p.objs && s != r ==> SameFor(p, q, s)
    ensures Inv(Insert(q, r, false)) && InMap(Insert(q, r, false), r)
  {
    hide ObjectOk;
    Leads(p, r);
    InsertedOk(p, q, r);
    InsertedSame(p, q, r);
    hide Inv, SameFor, NamesOk;
    OneObject(p, Insert(q, r, false), r);
  }

  lemma ConnectStartedOk(p: Pool, r: Ref)
    requires r in p.objs && ObjectOk(p, r) && r in p.local && !p.exited && p.objs[r].id !in p.connecting && NamesOk(p)
    ensures ObjectOk(Do(p, StartConnect(r)), r) && InConnecting(Do(p, StartConnect(r)), r)
  {
  }

  lemma ConnectStartedSame(p: Pool, r: Ref)
    requires IdsUnique(p.objs) && NamesOk(p) && r in p.objs && Can(p, StartConnect(r)) && p.objs[r].id !in p.connecting
    ensures var c := Do(p, StartConnect(r));
      NamesOk(c) && forall s :: s in p.objs && s != r ==> SameFor(p, c, s)
  {
    var c := Do(p, StartConnect(r));
    forall s | s in p.objs && s != r
      ensures SameFor(p, c, s)
    {
      assert p.objs[s].id != p.objs[r].id;
    }
  }

  lemma StartConnectInv(p: Pool, r: Ref)
    requires Inv(p) && Can(p, StartConnect(r))
    ensures Inv(Do(p, StartConnect(r))) && PlaceOf(Do(p, StartConnect(r)), r) == Connecting
  {
    OpenPlace(p, r);
    Leads(p, r);
    ConnectStartedOk(p, r);
    hide ObjectOk;
    var c := Do(p, StartConnect(r));
    ConnectStartedSame(p, r);
    hide Inv, SameFor, NamesOk;
    OneObject(p, c, r);
  }

  lemma LocalNotShut(p: Pool, r: Ref)
    requires Inv(p) && r in p.objs && (r in p.local || InConnecting(p, r))
    ensures !p.objs[r].shutdown && !p.objs[r].closing && p.objs[r].startups == 0
    ensures InConnecting(p, r) ==> !p.exited
  {
    assert ObjectOk(p, r);
  }

  lemma StartupMaps(p: Pool, r: Ref)
    requires Inv(p) && Can(p, Startup(r))
    ensures r in p.objs && Inv(Do(p, Startup(r))) && InMap(Do(p, Startup(r)), r)
  {
    OpenPlace(p, r);
    LocalNotShut(p, r);
    InsertMapped(p, p.(local := p.local - {r}), r);
  }

  /** The connect callback finds its own object under its own id, open, or nothing. */
  lemma ConnectFinds(p: Pool, r: Ref)
    requires Inv(p) && r in p.connects
    ensures r in p.objs && (p.objs[r].id in p.connecting <==> InConnecting(p, r))
    ensures InConnecting(p, r) ==> Open(p.objs[r]) && !p.objs[r].shutdown
  {
    Leads(p, r);
    OpenPlace(p, r);
    if InConnecting(p, r) {
      LocalNotShut(p, r);
    }
  }

  lemma Unconnected(p: Pool, r: Ref)
    requires Inv(p) && r in p.objs && InConnecting(p, r)
    ensures var q := p.(connects := p.connects - {r}, connecting := p.connecting - {p.objs[r].id},
                        freed := p.freed + {r});
      && NamesOk(q) && !InConnecting(q, r) && (InMap(q, r) <==> InMap(p, r))
      && forall s :: s in p.objs && s != r ==> SameFor(p, q, s)
  {
  }

  lemma ConnectGone(p: Pool, r: Ref)
    requires Inv(p) && r in p.connects && !InConnecting(p, r)
    ensures Inv(p.(connects := p.connects - {r}, leaked := p.leaked + {r}))
  {
    assert ObjectOk(p, r);
    OneObject(p, p.(connects := p.connects - {r}, leaked := p.leaked + {r}), r);
  }

  lemma ConnectDoneInv(p: Pool, r: Ref, ok: bool)
    requires Inv(p) && Can(p, ConnectDone(r, ok))
    ensures Inv(Do(p, ConnectDone(r, ok)))
  {
    hide Inv, Open;
    ConnectFinds(p, r);
    if InConnecting(p, r) {
      OpenPlace(p, r);
      LocalNotShut(p, r);
      Unconnected(p, r);
      var q := p.(connects := p.connects - {r}, connecting := p.connecting - {p.objs[r].id}, freed := p.freed + {r});
      if ok {
        InsertMapped(p, q, r);
      } else {
        CloseInv(p, q, r);
      }
    } else {
      ConnectGone(p, r);
    }
  }

  /** A connect that succeeds starts its connection up, and one that fails closes it. */
  lemma ConnectPlaces(p: Pool, r: Ref, ok: bool)
    requires Inv(p) && Can(p, ConnectDone(r, ok)) && InConnecting(p, r)
    ensures var q := Do(p, ConnectDone(r, ok));
      && r in q.objs && PlaceOf(q, r) == (if ok then Mapped else Closing)
      && q.objs[r].startups == (if ok then 1 else 0)
  {
    ConnectFinds(p, r);
    OpenPlace(p, r);
    LocalNotShut(p, r);
    Leads(p, r);
  }

  /** An event that changes fields of one object and nothing else. */
  lemma FieldsInv(p: Pool, r: Ref, t: Tcp)
    requires Inv(p) && r in p.objs && t.id == p.objs[r].id && TcpOk(t)
    requires t.shutdown == p.objs[r].shutdown && t.closing == p.objs[r].closing
    requires t.startups == p.objs[r].startups && t.stops == p.objs[r].stops
    requires t.closing || (t.tcpInited == p.objs[r].tcpInited && t.timerInited == p.objs[r].timerInited)
    requires r in p.connects || r in p.inFlight ==> t.tcpInited == p.objs[r].tcpInited
    ensures Inv(p.(objs := p.objs[r := t]))
  {
    FieldsOk(p, r, t);
    hide ObjectOk;
    var q := p.(objs := p.objs[r := t]);
    assert forall s :: s in p.objs && s != r ==> SameFor(p, q, s);
    FieldsNames(p, r, t);
    hide Inv;
    OneObject(p, q, r);
  }

  lemma FieldsNames(p: Pool, r: Ref, t: Tcp)
    requires NamesOk(p) && r in p.objs && t.id == p.objs[r].id
    ensures NamesOk(p.(objs := p.objs[r := t]))
  {
  }

  lemma FieldsOk(p: Pool, r: Ref, t: Tcp)
    requires r in p.objs && ObjectOk(p, r) && t.id == p.objs[r].id && TcpOk(t)
    requires t.shutdown == p.objs[r].shutdown && t.closing == p.objs[r].closing
    requires t.startups == p.objs[r].startups && t.stops == p.objs[r].stops
    requires t.closing || (t.tcpInited == p.objs[r].tcpInited && t.timerInited == p.objs[r].timerInited)
    requires r in p.connects || r in p.inFlight ==> t.tcpInited == p.objs[r].tcpInited
    ensures ObjectOk(p.(objs := p.objs[r := t]), r)
  {
  }

  lemma WritesInv(p: Pool, r: Ref, n: nat)
    requires Inv(p) && r in p.objs && (p.objs[r].tcpInited || n == 0)
    ensures Inv(p.(objs := p.objs[r := p.objs[r].(writes := n)]))
  {
    assert ObjectOk(p, r);
    FieldsInv(p, r, p.objs[r].(writes := n));
  }

  lemma WriteFacts(p: Pool, r: Ref)
    requires Inv(p) && r in p.objs
    ensures p.objs[r].writes > 0 || InMap(p, r) ==> p.objs[r].tcpInited
  {
    assert ObjectOk(p, r);
  }

  lemma TcpClosedInv(p: Pool, r: Ref)
    requires Inv(p) && Can(p, TcpClosed(r))
    ensures Inv(Do(p, TcpClosed(r)))
  {
    assert ObjectOk(p, r);
    FieldsInv(p, r, AfterTcpClosed(p.objs[r]));
  }

  lemma TimerClosedInv(p: Pool, r: Ref)
    requires Inv(p) && Can(p, TimerClosed(r))
    ensures Inv(Do(p, TimerClosed(r)))
  {
    assert ObjectOk(p, r);
    FieldsInv(p, r, AfterTimerClosed(p.objs[r]));
  }

  lemma ExitedOk(p: Pool, r: Ref)
    requires r in p.objs && ObjectOk(p, r) && !p.exited
    requires (r in p.mapped.Values <==> InMap(p, r)) && (r in p.connecting.Values <==> InConnecting(p, r))
    ensures ObjectOk(CloseAll(p.(exited := true)), r)
  {
  }

  lemma ExitInv(p: Pool)
    requires Inv(p) && !p.exited
    ensures Inv(CloseAll(p.(exited := true)))
  {
    hide ObjectOk;
    var q := CloseAll(p.(exited := true));
    forall r | r in q.objs
      ensures ObjectOk(q, r)
    {
      ValuesAre(p, r);
      ExitedOk(p, r);
    }
    ExitNames(p);
  }

  lemma ExitNames(p: Pool)
    requires IdsUnique(p.objs) && NamesOk(p)
    ensures var q := CloseAll(p.(exited := true)); NamesOk(q) && IdsUnique(q.objs)
  {
    hide AtExit;
    var q := CloseAll(p.(exited := true));
    forall r | r in p.objs
      ensures q.objs[r].id == p.objs[r].id
    {
      SameId(p.objs[r], r in p.mapped.Values, r in p.connecting.Values);
    }
  }

  lemma SameId(t: Tcp, running: bool, trying: bool)
    ensures AtExit(t, running, trying).id == t.id
  {
  }

  lemma ValuesAre(p: Pool, r: Ref)
    requires Inv(p) && r in p.objs
    ensures r in p.mapped.Values <==> InMap(p, r)
    ensures r in p.connecting.Values <==> InConnecting(p, r)
  {
    if InMap(p, r) {
      assert p.mapped[p.objs[r].id] in p.mapped.Values;
    }
    if InConnecting(p, r) {
      assert p.connecting[p.objs[r].id] in p.connecting.Values;
    }
  }

  lemma DoInv(p: Pool, e: Event)
    requires Inv(p) && Can(p, e)
    ensures Inv(Do(p, e))
  {
    hide Inv, TcpOk, OnePlace;
    match e
    case Alloc(r, tcpOk, timerOk) => AllocInv(p, r, tcpOk, timerOk);
    case OtherSocket => CounterInv(p);
    case DropLocal(r) => DropLocalInv(p, r);
    case StartConnect(r) => StartConnectInv(p, r);
    case ConnectDone(r, ok) => ConnectDoneInv(p, r, ok);
    case Startup(r) => StartupMaps(p, r);
    case Failed(r) => ShutInv(p, p.objs[r].id);
    case Timeout(r, _) => ShutInv(p, p.objs[r].id);
    case StartWrite(r) =>
      WriteFacts(p, r);
      WritesInv(p, r, p.objs[r].writes + 1);
    case WriteDone(r, ok) =>
      WriteFacts(p, r);
      WritesInv(p, r, p.objs[r].writes - 1);
      ShutInv(p.(objs := p.objs[r := p.objs[r].(writes := p.objs[r].writes - 1)]), p.objs[r].id);
    case CloseRequest(id, force, how) =>
      ShutInv(p, id);
      ShutGracefullyInv(p, id, how);
    case ShutdownDone(r) => ShutdownDoneInv(p, r);
    case TcpClosed(r) => TcpClosedInv(p, r);
    case TimerClosed(r) => TimerClosedInv(p, r);
    case Exit => ExitInv(p);
  }

  lemma CounterInv(p: Pool)
    requires Inv(p)
    ensures Inv(p.(counter := p.counter + 1))
  {
    var q := p.(counter := p.counter + 1);
    forall r | r in q.objs
      ensures ObjectOk(q, r)
    {
      assert ObjectOk(p, r);
    }
  }

  predicate Reaches(p: Pool, events: seq<Event>, q: Pool)
    decreases |events|
  {
    if events == [] then q == p else Can(p, events[0]) && Reaches(Do(p, events[0]), events[1..], q)
  }

  lemma {:induction false} ReachesInv(p: Pool, events: seq<Event>, q: Pool)
    requires Inv(p) && Reaches(p, events, q)
    ensures Inv(q)
    decreases |events|
  {
    hide Inv, Can, Do;
    if events != [] {
      DoInv(p, events[0]);
      ReachesInv(Do(p, events[0]), events[1..], q);
    }
  }

  /** In every reachable state each object is in exactly one place; an object in either map is open and is found under
      its own id, which no other object has. */
  lemma UniqueOwner(events: seq<Event>, p: Pool)
    requires Reaches(Initial(), events, p)
    ensures Inv(p)
    ensures forall r :: r in p.objs ==> OnePlace(p, r) && p.objs[r].deletions <= 1
    ensures forall r :: r in p.objs && (InMap(p, r) || InConnecting(p, r)) ==> Open(p.objs[r])
    ensures forall id :: id in p.mapped ==> InMap(p, p.mapped[id])
    ensures forall id :: id in p.connecting ==> InConnecting(p, p.connecting[id])
    ensures IdsUnique(p.objs)
  {
    hide Reaches;
    ReachesInv(Initial(), events, p);
    forall r | r in p.objs
      ensures OnePlace(p, r) && p.objs[r].deletions <= 1
    {
      assert ObjectOk(p, r);
    }
  }

  /** The object is deleted at the close callback of the last of its handles, in either order of the two callbacks; as
      long as it is not deleted, once it is closing, a close callback is still to come. */
  lemma DeletedByLastCallback(events: seq<Event>, p: Pool, r: Ref)
    requires Reaches(Initial(), events, p) && r in p.objs
    ensures var t := p.objs[r];
      && (t.deletions > 0 <==> !t.tcpInited && !t.timerInited)
      && (t.deletions > 0 ==> !t.tcpCloseDue && !t.timerCloseDue && t.writes == 0)
      && (t.closing && t.deletions == 0 ==> t.tcpCloseDue || t.timerCloseDue)
      && (!t.closing && (t.hadTcp || t.hadTimer) ==> t.deletions == 0)
    ensures Can(p, TcpClosed(r)) ==> (Do(p, TcpClosed(r)).objs[r].deletions == 1 <==> !p.objs[r].timerInited)
    ensures Can(p, TimerClosed(r)) ==> (Do(p, TimerClosed(r)).objs[r].deletions == 1 <==> !p.objs[r].tcpInited)
  {
    hide Reaches;
    ReachesInv(Initial(), events, p);
    assert TcpOk(p.objs[r]) by {
      assert ObjectOk(p, r);
    }
    hide Inv;
  }

  /** The object of an event, if it has one. */
  function Object(e: Event): (r: set<Ref>) {
    match e
    case Alloc(_, _, _) => {}
    case OtherSocket => {}
    case CloseRequest(_, _, _) => {}
    case Exit => {}
    case DropLocal(r) => {r}
    case StartConnect(r) => {r}
    case ConnectDone(r, _) => {r}
    case Startup(r) => {r}
    case Failed(r) => {r}
    case Timeout(r, _) => {r}
    case StartWrite(r) => {r}
    case WriteDone(r, _) => {r}
    case ShutdownDone(r) => {r}
    case TcpClosed(r) => {r}
    case TimerClosed(r) => {r}
  }

  /** No callback ever runs on a deleted object. */
  lemma NoCallbackAfterDelete(events: seq<Event>, p: Pool, e: Event, r: Ref)
    requires Reaches(Initial(), events, p) && Can(p, e) && r in Object(e)
    ensures Exists(p, r)
  {
    hide Reaches;
    ReachesInv(Initial(), events, p);
    assert r in p.objs ==> ObjectOk(p, r);
  }

  /** A timeout that the user answers with a kill closes a running connection. Any other object stays as it is, one that
      is still connecting or whose graceful shutdown is under way, and every object if the user answers otherwise. */
  lemma TimeoutOnlyClosesMapped(events: seq<Event>, p: Pool, r: Ref, kill: bool)
    requires Reaches(Initial(), events, p) && Can(p, Timeout(r, kill))
    ensures kill && InMap(p, r) ==> PlaceOf(p, r) == Mapped && PlaceOf(Do(p, Timeout(r, kill)), r) == Closing
    ensures !kill || !InMap(p, r) ==> Do(p, Timeout(r, kill)) == p
  {
    hide Reaches;
    ReachesInv(Initial(), events, p);
    Leads(p, r);
    OpenPlace(p, r);
    assert ObjectOk(p, r);
  }

  /** Pool exit leaves no connection in either map, closes each that was there, and none comes back. */
  lemma {:induction false} ExitedStaysEmpty(p: Pool, events: seq<Event>, q: Pool)
    requires p.exited && p.mapped == map[] && p.connecting == map[] && Reaches(p, events, q)
    ensures q.exited && q.mapped == map[] && q.connecting == map[]
    decreases |events|
  {
    hide CloseRef;
    if events != [] {
      ExitedStep(p, events[0]);
      ExitedStaysEmpty(Do(p, events[0]), events[1..], q);
    }
  }

  lemma ExitedStep(p: Pool, e: Event)
    requires p.exited && p.mapped == map[] && p.connecting == map[] && Can(p, e)
    ensures Do(p, e).exited && Do(p, e).mapped == map[] && Do(p, e).connecting == map[]
  {
  }

  /** The connection part of CnetworkPool. Pointers are references; the objects they point to are in `objs`. */
  class Connections {
    var objs: map<Ref, Tcp>
    var connecting: map<Id, Ref>
    var mapped: map<Id, Ref>
    var counter: Id

    ghost var local: set<Ref>
    ghost var connects: set<Ref>
    ghost var inFlight: set<Ref>
    ghost var freed: set<Ref>
    ghost var leaked: set<Ref>
    ghost var exited: bool

    ghost function Abs(): Pool
      reads this
    {
      Pool(objs, local, connecting, mapped, connects, inFlight, freed, leaked, counter, exited)
    }

    constructor ()
      ensures Abs() == Initial() && Inv(Abs())
    {
      objs, connecting, mapped, counter := map[], map[], map[], 0;
      local, connects, inFlight, freed, leaked, exited := {}, {}, {}, {}, {}, false;
    }

    /** Ctcp::close. */
    method Close(r: Ref)
      requires r in objs
      modifies this`objs
      ensures Abs() == CloseRef(old(Abs()), r)
    {
      var t := objs[r];
      if t.tcpInited || t.timerInited {
        if !t.closing {
          objs := objs[r := t.(closing := true, tcpCloseDue := t.tcpInited, timerCloseDue := t.timerInited)];
        }
      } else {
        objs := objs[r := Deleted(t)];
      }
    }

    /** The close callbacks that Ctcp::close registers. */
    method OnTcpClosed(r: Ref)
      requires Inv(Abs()) && Can(Abs(), TcpClosed(r))
      modifies this`objs
      ensures Inv(Abs()) && Abs() == Do(old(Abs()), TcpClosed(r))
    {
      hide Inv;
      DoInv(Abs(), TcpClosed(r));
      var t := objs[r].(tcpInited := false, tcpCloseDue := false);
      if !t.timerInited {
        t := Deleted(t);
      }
      objs := objs[r := t];
    }

    method OnTimerClosed(r: Ref)
      requires Inv(Abs()) && Can(Abs(), TimerClosed(r))
      modifies this`objs
      ensures Inv(Abs()) && Abs() == Do(old(Abs()), TimerClosed(r))
    {
      hide Inv;
      DoInv(Abs(), TimerClosed(r));
      var t := objs[r].(timerInited := false, timerCloseDue := false);
      if !t.tcpInited {
        t := Deleted(t);
      }
      objs := objs[r := t];
    }

    /** Ctcp::shutdown_and_close on an object that the map has given up; `how` is what memory and uv_shutdown say. */
    method ShutdownAndClose(r: Ref, how: Graceful)
      requires r in objs
      modifies this`objs, this`inFlight
      ensures var t := old(objs)[r]; var p := old(Abs());
        Abs() == if !t.tcpInited then CloseRef(p, r)
          else if t.closing || t.shutdown then p
          else if how == Refused then CloseRef(p, r)
          else p.(objs := p.objs[r := t.(shutdown := true)], inFlight := p.inFlight + {r})
    {
      if !objs[r].tcpInited {
        Close(r);
        return;
      }
      if !objs[r].closing && !objs[r].shutdown {
        if how == Refused {
          Close(r);
          return;
        }
        inFlight := inFlight + {r};
        objs := objs[r := objs[r].(shutdown := true)];
      }
    }

    /** shutdownTcpConnection. */
    method ShutdownTcpConnection(r: Ref, graceful: bool, how: Graceful)
      requires Inv(Abs()) && r in objs
      modifies this`objs, this`mapped, this`inFlight
      ensures Inv(Abs())
      ensures var p := old(Abs()); var id := p.objs[r].id;
        Abs() == if graceful then ShutGracefully(p, id, how) else Shut(p, id)
    {
      hide Inv;
      var id := objs[r].id;
      ShutInv(Abs(), id);
      ShutGracefullyInv(Abs(), id, how);
      if id in mapped {
        Unmapped(Abs(), id);
        var found := mapped[id];
        mapped := mapped - {id};
        if graceful {
          ShutdownAndClose(found, how);
        } else {
          Close(found);
        }
      }
    }

    /** Insertion into the map of running connections; a pointer that does not get into it closes its object. */
    method InsertStream(r: Ref)
      requires r in objs
      modifies this`objs, this`mapped
      ensures Abs() == Insert(old(Abs()), r, false)
    {
      if objs[r].id in mapped {
        Close(r);
      } else {
        mapped := mapped[objs[r].id := r];
        objs := objs[r := Started(objs[r])];
      }
    }

    /** startupTcpConnection. */
    method StartupTcpConnection(r: Ref)
      requires Inv(Abs()) && Can(Abs(), Startup(r))
      modifies this`objs, this`mapped, this`local
      ensures Inv(Abs()) && Abs() == Do(old(Abs()), Startup(r)) && InMap(Abs(), r)
    {
      hide Inv;
      DoInv(Abs(), Startup(r));
      StartupMaps(Abs(), r);
      local := local - {r};
      InsertStream(r);
    }

    /** The callback of uv_tcp_connect; `ok` if neither it nor what follows it fails. */
    method OnConnected(r: Ref, ok: bool)
      requires Inv(Abs()) && Can(Abs(), ConnectDone(r, ok))
      modifies this`objs, this`connecting, this`mapped, this`connects, this`freed, this`leaked
      ensures Inv(Abs()) && Abs() == Do(old(Abs()), ConnectDone(r, ok))
      ensures old(InConnecting(Abs(), r)) ==>
        r in objs && PlaceOf(Abs(), r) == (if ok then Mapped else Closing) && objs[r].startups == (if ok then 1 else 0)
    {
      hide Inv, Open, PlaceOf;
      ConnectFinds(Abs(), r);
      if InConnecting(Abs(), r) {
        ConnectPlaces(Abs(), r, ok);
      }
      DoInv(Abs(), ConnectDone(r, ok));
      connects := connects - {r};
      if objs[r].id in connecting {
        var tcp := connecting[objs[r].id];
        connecting := connecting - {objs[r].id};
        freed := freed + {r};
        if !ok || objs[tcp].closing {
          Close(tcp);
        } else {
          InsertStream(tcp);
        }
      } else {
        leaked := leaked + {r};
      }
    }

    /** The smart pointers of a whole map close their objects. */
    method CloseEach(rs: set<Ref>)
      requires rs <= objs.Keys
      modifies this`objs
      ensures objs == ClosedIn(old(objs), rs) && objs.Keys == old(objs).Keys
    {
      var todo := rs;
      assert objs == ClosedIn(old(objs), {});
      while todo != {}
        invariant todo <= rs && objs == ClosedIn(old(objs), rs - todo)
        decreases |todo|
      {
        var r :| r in todo;
        Close(r);
        todo := todo - {r};
      }
    }

    /** The shutdown callbacks of all running connections. */
    method StopEach(rs: set<Ref>)
      requires rs <= objs.Keys
      modifies this`objs
      ensures objs == StoppedIn(old(objs), rs) && objs.Keys == old(objs).Keys
    {
      var todo := rs;
      assert objs == StoppedIn(old(objs), {});
      while todo != {}
        invariant todo <= rs && objs == StoppedIn(old(objs), rs - todo)
        decreases |todo|
      {
        var r :| r in todo;
        objs := objs[r := Stopped(objs[r])];
        todo := todo - {r};
      }
    }

    /** The part of pool exit that drops the connections. */
    method OnExit()
      requires Inv(Abs()) && Can(Abs(), Exit)
      modifies this`objs, this`mapped, this`connecting, this`exited
      ensures Inv(Abs()) && Abs() == Do(old(Abs()), Exit)
    {
      hide Inv, ClosedIn, StoppedIn, CloseAll;
      DoInv(Abs(), Exit);
      ExitInTwo(Abs());
      ghost var p := Abs().(exited := true);
      ExitFields(p);
      exited := true;
      var streams := mapped.Values;
      mapped := map[];
      StopEach(streams);
      CloseEach(streams);
      var others := connecting.Values;
      connecting := map[];
      CloseEach(others);
    }
  }

  function ClosedIn(objs: map<Ref, Tcp>, rs: set<Ref>): map<Ref, Tcp> {
    map r | r in objs :: if r in rs then Closed(objs[r]) else objs[r]
  }

  function StoppedIn(objs: map<Ref, Tcp>, rs: set<Ref>): map<Ref, Tcp> {
    map r | r in objs :: if r in rs then Stopped(objs[r]) else objs[r]
  }

  /** Exit changes the objects and empties both maps. */
  lemma ExitFields(p: Pool)
    ensures CloseAll(p) == p.(objs := CloseAll(p).objs, mapped := map[], connecting := map[])
  {
  }

  /** Telling and closing the objects of one map and then closing those of the other is what exit does. */
  lemma ExitInTwo(p: Pool)
    requires Inv(p)
    ensures p.mapped.Values <= p.objs.Keys && p.connecting.Values <= p.objs.Keys
    ensures ClosedIn(ClosedIn(StoppedIn(p.objs, p.mapped.Values), p.mapped.Values), p.connecting.Values)
      == CloseAll(p.(exited := true)).objs
  {
    var running, trying := p.mapped.Values, p.connecting.Values;
    forall r | r in p.objs
      ensures !(r in running && r in trying)
    {
      ValuesAre(p, r);
      OpenPlace(p, r);
    }
    hide Inv;
    InTwo(p.objs, running, trying);
  }

  lemma InTwo(objs: map<Ref, Tcp>, running: set<Ref>, trying: set<Ref>)
    requires forall r :: r in objs ==> !(r in running && r in trying)
    ensures ClosedIn(ClosedIn(StoppedIn(objs, running), running), trying)
      == map r | r in objs :: AtExit(objs[r], r in running, r in trying)
  {
    hide Closed, Stopped;
  }
}
