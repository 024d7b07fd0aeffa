/** Waking the loop thread: pushing threads, the async handle with its pending bit, the try_lock of the callback, and
    the exit handshake between the destructor and the loop. Every step between two synchronisation points is one
    event. */
module PoolWakeups {

  /** A pushing thread: outside, holding the lock before or after its push, or about to signal. */
  datatype Pusher = Out | Locked | Pushed | ToSignal

  /** The destructor: not called, exit flag set, holding the lock, having seen the handle, done with it, or joining. */
  datatype Closer = NotCalled | Wanted | HasLock | SawHandle | Done | Joining

  /** The loop thread: in the poll, in the callback before try_lock, holding the lock, behind the copy of the queues,
      serving the batch, about to clean up, holding the lock to release the handle, having released it, cleaning up
      behind the lock, back in the loop until the last handle is closed, or done. */
  datatype Loop =
    | Polling | Called | Holding | Taken | Serving | Leaving | Releasing | Released | Cleaning | Draining | Finished

  datatype Holder = Nobody | ByPusher(t: nat) | ByCloser | ByLoop | ByCallback

  /** `signal` is the pending bit of the async handle; `work` counts the requests in the queues; `inner` is a push that
      a user callback on the loop thread is in. */
  datatype Pool = Pool(
    lock: Holder,
    pushers: map<nat, Pusher>,
    closer: Closer,
    loop: Loop,
    inner: Pusher,
    signal: bool,
    work: nat,
    wantExit: bool,
    handle: bool)

  datatype Event =
    | PushLock(t: nat)
    | PushRequest(t: nat)
    | PushUnlock(t: nat)
    | PushSignal(t: nat)
    | CallbackLock
    | CallbackPush
    | CallbackUnlock
    | CallbackSignal
    | Dispatch
    | TryLock(ok: bool)
    | CopyQueues
    | CheckExit
    | Serve
    | LeaveLock
    | ReleaseHandle
    | LeaveUnlock
    | CleanedUp
    | LoopEnds
    | WantExit
    | CloserLock
    | CloserCheck
    | CloserSignal
    | CloserUnlock

  predicate At(p: Pool, t: nat, pc: Pusher) {
    t in p.pushers && p.pushers[t] == pc
  }

  /** The pool must not be used any more by then: no thread pushes while the destructor runs. */
  predicate AllOut(p: Pool) {
    forall t :: t in p.pushers ==> p.pushers[t] == Out
  }

  /** Where the loop thread runs user callbacks: those of other handles, those of the batch, the shutdown callbacks of
      pool exit, and what comes until the loop ends, as the drops of writes that exit has cancelled. */
  predicate InUser(loop: Loop) {
    loop == Polling || loop == Serving || BehindRelease(loop)
  }

  /** Where user callbacks run with the handle released. */
  predicate BehindRelease(loop: Loop) {
    loop == Cleaning || loop == Draining
  }

  predicate Can(p: Pool, e: Event) {
    match e
    case PushLock(t) => At(p, t, Out) && p.lock == Nobody && !p.wantExit
    case PushRequest(t) => At(p, t, Locked)
    case PushUnlock(t) => At(p, t, Pushed)
    case PushSignal(t) => At(p, t, ToSignal)
    case CallbackLock => p.inner == Out && InUser(p.loop) && p.lock == Nobody
    case CallbackPush => p.inner == Locked
    case CallbackUnlock => p.inner == Pushed
    case CallbackSignal => p.inner == ToSignal
    case Dispatch => p.loop == Polling && p.inner == Out && p.signal && p.handle
    case TryLock(ok) => p.loop == Called && (ok ==> p.lock == Nobody)
    case CopyQueues => p.loop == Holding
    case CheckExit => p.loop == Taken
    case Serve => p.loop == Serving && p.inner == Out
    case LeaveLock => p.loop == Leaving && p.lock == Nobody
    case ReleaseHandle => p.loop == Releasing
    case LeaveUnlock => p.loop == Released
    case CleanedUp => p.loop == Cleaning && p.inner == Out
    case LoopEnds => p.loop == Draining && p.inner == Out
    case WantExit => p.closer == NotCalled && AllOut(p)
    case CloserLock => p.closer == Wanted && p.lock == Nobody
    case CloserCheck => p.closer == HasLock
    case CloserSignal => p.closer == SawHandle
    case CloserUnlock => p.closer == Done
  }

  function Do(p: Pool, e: Event): Pool
    requires Can(p, e)
  {
    match e
    case PushLock(t) => p.(lock := ByPusher(t), pushers := p.pushers[t := Locked])
    case PushRequest(t) => p.(work := p.work + 1, pushers := p.pushers[t := Pushed])
    case PushUnlock(t) => p.(lock := Nobody, pushers := p.pushers[t := ToSignal])
    case PushSignal(t) => p.(signal := true, pushers := p.pushers[t := Out])
    case CallbackLock => p.(lock := ByCallback, inner := Locked)
    case CallbackPush => p.(work := p.work + 1, inner := Pushed)
    case CallbackUnlock => p.(lock := Nobody, inner := ToSignal)
    case CallbackSignal => p.(signal := true, inner := Out)
    case Dispatch => p.(signal := false, loop := Called)
    case TryLock(ok) => if ok then p.(lock := ByLoop, loop := Holding) else p.(signal := true, loop := Polling)
    case CopyQueues => p.(work := 0, lock := Nobody, loop := Taken)
    case CheckExit => p.(loop := if p.wantExit then Leaving else Serving)
    case Serve => p.(loop := Polling)
    case LeaveLock => p.(lock := ByLoop, loop := Releasing)
    case ReleaseHandle => p.(handle := false, loop := Released)
    case LeaveUnlock => p.(lock := Nobody, loop := Cleaning)
    case CleanedUp => p.(loop := Draining)
    case LoopEnds => p.(loop := Finished)
    case WantExit => p.(wantExit := true, closer := Wanted)
    case CloserLock => p.(lock := ByCloser, closer := HasLock)
    case CloserCheck => p.(closer := if p.handle then SawHandle else Done)
    case CloserSignal => p.(signal := true, closer := Done)
    case CloserUnlock => p.(lock := Nobody, closer := Joining)
  }

  function Initial(threads: set<nat>): Pool {
    Pool(Nobody, map t | t in threads :: Out, NotCalled, Polling, Out, false, 0, false, true)
  }

  predicate PushersOk(pushers: map<nat, Pusher>, lock: Holder) {
    && (forall t :: t in pushers ==> (pushers[t] == Locked || pushers[t] == Pushed <==> lock == ByPusher(t)))
    && (lock.ByPusher? ==> lock.t in pushers)
  }

  /** The lock is held by the thread whose place in its code says so, and by no other. */
  predicate LockOk(p: Pool) {
    PushersOk(p.pushers, p.lock) && HolderOk(p)
  }

  predicate HolderOk(p: Pool) {
    && (p.closer == HasLock || p.closer == SawHandle || p.closer == Done <==> p.lock == ByCloser)
    && (p.loop == Holding || p.loop == Releasing || p.loop == Released <==> p.lock == ByLoop)
    && (p.inner == Locked || p.inner == Pushed <==> p.lock == ByCallback)
    && (p.inner != Out ==> InUser(p.loop))
  }

  predicate ExitOk(p: Pool) {
    && (p.wantExit <==> p.closer != NotCalled)
    && (p.wantExit ==> AllOut(p))
    && (p.loop == Leaving || p.loop == Releasing ==> p.wantExit)
    && (p.loop == Released || BehindRelease(p.loop) || p.loop == Finished ==> p.wantExit)
    && (!p.handle <==> p.loop == Released || BehindRelease(p.loop) || p.loop == Finished)
    && (p.closer == SawHandle ==> p.handle)
  }

  predicate SomePusherWillSignal(p: Pool) {
    exists t :: t in p.pushers && (p.pushers[t] == Pushed || p.pushers[t] == ToSignal)
  }

  /** A request in the queues has a signal set or on its way, or the callback has not yet copied the queues. */
  predicate WorkIsSignalled(p: Pool) {
    p.work > 0 ==>
      || p.signal || SomePusherWillSignal(p) || p.inner == Pushed || p.inner == ToSignal
      || p.loop == Called || p.loop == Holding || !p.handle || p.wantExit
  }

  /** Once exit is requested, the handle is released, or the loop will look at the flag, or a signal is set or on its
      way. */
  predicate ExitIsSignalled(p: Pool) {
    p.wantExit ==>
      || !p.handle || p.signal
      || p.closer == Wanted || p.closer == HasLock || p.closer == SawHandle
      || p.loop == Called || p.loop == Holding || p.loop == Taken || p.loop == Leaving || p.loop == Releasing
  }

  predicate Inv(p: Pool) {
    LockOk(p) && ExitOk(p) && WorkIsSignalled(p) && ExitIsSignalled(p)
  }

  /** Events of pushing threads. */
  predicate ByPushers(e: Event) {
    e.PushLock? || e.PushRequest? || e.PushUnlock? || e.PushSignal?
  }

  lemma PusherMoves(pushers: map<nat, Pusher>, lock: Holder, t: nat, pc: Pusher)
    requires PushersOk(pushers, lock) && t in pushers
    ensures lock == Nobody && pc == Locked ==> PushersOk(pushers[t := pc], ByPusher(t))
    ensures lock == ByPusher(t) && pc == Pushed ==> PushersOk(pushers[t := pc], lock)
    ensures lock == ByPusher(t) && pc == ToSignal ==> PushersOk(pushers[t := pc], Nobody)
    ensures lock != ByPusher(t) && pc == Out ==> PushersOk(pushers[t := pc], lock)
  {
  }

  lemma OthersMove(pushers: map<nat, Pusher>, lock: Holder, lock': Holder)
    requires PushersOk(pushers, lock) && !lock.ByPusher? && !lock'.ByPusher?
    ensures PushersOk(pushers, lock')
  {
  }

  lemma PusherAt(p: Pool, t: nat)
    requires PushersOk(p.pushers, p.lock) && t in p.pushers
    ensures At(p, t, Locked) || At(p, t, Pushed) <==> p.lock == ByPusher(t)
  {
  }

  lemma DoPushersOk(p: Pool, e: Event)
    requires LockOk(p) && Can(p, e)
    ensures PushersOk(Do(p, e).pushers, Do(p, e).lock)
  {
    hide PushersOk;
    var q := Do(p, e);
    if ByPushers(e) {
      PusherAt(p, e.t);
      PusherMoves(p.pushers, p.lock, e.t, q.pushers[e.t]);
    } else if q.lock != p.lock {
      OthersMove(p.pushers, p.lock, q.lock);
    }
  }

  lemma DoHolderOk(p: Pool, e: Event)
    requires LockOk(p) && Can(p, e)
    ensures HolderOk(Do(p, e))
  {
    if ByPushers(e) {
      PusherAt(p, e.t);
    }
    hide PushersOk;
  }

  lemma DoLockOk(p: Pool, e: Event)
    requires LockOk(p) && ExitOk(p) && Can(p, e)
    ensures LockOk(Do(p, e))
  {
    DoPushersOk(p, e);
    DoHolderOk(p, e);
    hide Do, PushersOk, HolderOk;
  }

  lemma DoExitOk(p: Pool, e: Event)
    requires LockOk(p) && ExitOk(p) && Can(p, e)
    ensures ExitOk(Do(p, e))
  {
  }

  lemma DoWork(p: Pool, e: Event)
    requires Inv(p) && Can(p, e)
    ensures WorkIsSignalled(Do(p, e))
  {
    hide LockOk, ExitOk;
    var q := Do(p, e);
    if e.PushRequest? || e.PushUnlock? {
      assert q.pushers[e.t] == Pushed || q.pushers[e.t] == ToSignal;
    } else if SomePusherWillSignal(p) {
      var t :| t in p.pushers && (p.pushers[t] == Pushed || p.pushers[t] == ToSignal);
      assert e.PushSignal? || (t in q.pushers && q.pushers[t] == p.pushers[t]);
    }
  }

  lemma DoExit(p: Pool, e: Event)
    requires Inv(p) && Can(p, e)
    ensures ExitIsSignalled(Do(p, e))
  {
  }

  lemma DoInv(p: Pool, e: Event)
    requires Inv(p) && Can(p, e)
    ensures Inv(Do(p, e))
  {
    hide LockOk, ExitOk, WorkIsSignalled, ExitIsSignalled;
    DoLockOk(p, e);
    DoExitOk(p, e);
    DoWork(p, e);
    DoExit(p, e);
  }

  predicate Reaches(p: Pool, events: seq<Event>, q: Pool)
    decreases |events|
  {
    if events == [] then q == p else Can(p, events[0]) && Reaches(Do(p, events[0]), events[1..], q)
  }

  lemma {:induction false} ReachesInv(p: Pool, events: seq<Event>, q: Pool)
    requires Inv(p) && Reaches(p, events, q)
    ensures Inv(q)
    decreases |events|
  {
    hide Inv, Can, Do;
    if events != [] {
      DoInv(p, events[0]);
      ReachesInv(Do(p, events[0]), events[1..], q);
    }
  }

  /** Progress of the pool itself: an event that begins no push, of a thread or of a user callback, and is not the call
      of the destructor. */
  predicate Internal(e: Event) {
    !e.PushLock? && !e.CallbackLock? && !e.WantExit?
  }

  /** Something the threads are obliged to do can be done. */
  function NextEvent(p: Pool): Event
    requires p.lock.ByPusher? ==> p.lock.t in p.pushers
  {
    match p.lock
    case ByPusher(t) => if p.pushers[t] == Locked then PushRequest(t) else PushUnlock(t)
    case ByCallback => if p.inner == Locked then CallbackPush else CallbackUnlock
    case ByCloser =>
      if p.closer == HasLock then CloserCheck else if p.closer == SawHandle then CloserSignal else CloserUnlock
    case ByLoop =>
      if p.loop == Holding then CopyQueues else if p.loop == Releasing then ReleaseHandle else LeaveUnlock
    case Nobody =>
      if p.closer == Wanted then CloserLock
      else if p.inner == ToSignal then CallbackSignal
      else
        match p.loop
        case Called => TryLock(true)
        case Taken => CheckExit
        case Serving => Serve
        case Leaving => LeaveLock
        case _ => Dispatch
  }

  /** In every interleaving: pending requests and a requested exit are never left without a signal that is set or about
      to be set or a callback that has yet to look; so as long as something is to be done and the pool has not cleaned
      up, some thread can go on without a new push, whatever fails in try_lock. */
  lemma NoLostWakeup(threads: set<nat>, events: seq<Event>, p: Pool)
    requires Reaches(Initial(threads), events, p)
    ensures WorkIsSignalled(p) && ExitIsSignalled(p)
    ensures (p.work > 0 || p.wantExit) && p.handle ==>
      exists e :: Internal(e) && Can(p, e)
  {
    hide Reaches;
    ReachesInv(Initial(threads), events, p);
    if (p.work > 0 || p.wantExit) && p.handle {
      assert p.lock.ByPusher? ==> p.lock.t in p.pushers;
      if Can(p, NextEvent(p)) {
        assert Internal(NextEvent(p));
      } else {
        PusherGoesOn(p);
      }
    }
  }

  lemma PusherGoesOn(p: Pool)
    requires Inv(p) && (p.work > 0 || p.wantExit) && p.handle && !Can(p, NextEvent(p))
    ensures exists e :: Internal(e) && Can(p, e)
  {
    assert SomePusherWillSignal(p);
    var t :| t in p.pushers && (p.pushers[t] == Pushed || p.pushers[t] == ToSignal);
    assert p.lock == Nobody;
    assert Internal(PushSignal(t)) && Can(p, PushSignal(t));
  }

  predicate Signals(e: Event) {
    e.PushSignal? || e.CallbackSignal? || e.CloserSignal? || e == TryLock(false)
  }

  /** Who signals a released handle: not a pushing thread, not the callback that failed to lock, and not the destructor,
      which looks at the handle and signals it under one hold of the lock. A user callback on the loop thread does
      exactly if it runs behind the release of the handle, in pool exit or in the rest of the loop. */
  lemma SignalsOnlyLiveHandle(threads: set<nat>, events: seq<Event>, p: Pool, e: Event)
    requires Reaches(Initial(threads), events, p) && Can(p, e) && Signals(e)
    ensures p.handle <==> !(e == CallbackSignal && BehindRelease(p.loop))
  {
    hide Reaches;
    ReachesInv(Initial(threads), events, p);
  }

  /** The loop thread does not leave the place at which a callback began its push. */
  lemma {:induction false} PushStaysInPlace(p: Pool, events: seq<Event>, q: Pool)
    requires Inv(p) && p.inner != Out && Reaches(p, events, q) && CallbackSignal !in events
    ensures Inv(q) && q.loop == p.loop && q.inner != Out
    decreases |events|
  {
    hide Inv;
    if events != [] {
      DoInv(p, events[0]);
      PlaceStep(p, events[0]);
      assert forall e :: e in events[1..] ==> e in events;
      PushStaysInPlace(Do(p, events[0]), events[1..], q);
    }
  }

  lemma PlaceStep(p: Pool, e: Event)
    requires Inv(p) && p.inner != Out && Can(p, e) && e != CallbackSignal
    ensures Do(p, e).loop == p.loop && Do(p, e).inner != Out
  {
  }

  /** A push of a callback, whatever the other threads do in the middle of it, signals a live handle if and only if the
      callback did not begin it behind the release: neither in the shutdown callbacks of pool exit nor in any callback
      that the loop runs after that. */
  lemma CallbackPushIsSafeIff(threads: set<nat>, before: seq<Event>, p: Pool, events: seq<Event>, q: Pool)
    requires Reaches(Initial(threads), before, p) && Can(p, CallbackLock)
    requires Reaches(Do(p, CallbackLock), events, q) && CallbackSignal !in events && Can(q, CallbackSignal)
    ensures q.handle <==> !BehindRelease(p.loop)
  {
    hide Reaches;
    ReachesInv(Initial(threads), before, p);
    DoInv(p, CallbackLock);
    PushStaysInPlace(Do(p, CallbackLock), events, q);
  }

  lemma {:induction false} OneMore(p: Pool, events: seq<Event>, q: Pool, e: Event)
    requires Reaches(p, events, q) && Can(q, e)
    ensures Reaches(p, events + [e], Do(q, e))
    decreases |events|
  {
    hide Can, Do;
    if events == [] {
      assert ([] + [e])[1..] == [];
    } else {
      assert (events + [e])[1..] == events[1..] + [e];
      OneMore(Do(p, events[0]), events[1..], q, e);
    }
  }

  /** The destructor from its call to the join. */
  lemma CloserRun(s: Pool, events: seq<Event>, p: Pool) returns (events': seq<Event>, p': Pool)
    requires Reaches(s, events, p)
    requires p.closer == NotCalled && AllOut(p) && p.lock == Nobody && p.handle
    ensures Reaches(s, events', p') && p' == p.(wantExit := true, closer := Joining, signal := true)
  {
    hide Reaches, AllOut;
    events', p' := Then(s, events, p, WantExit);
    events', p' := Then(s, events', p', CloserLock);
    events', p' := Then(s, events', p', CloserCheck);
    events', p' := Then(s, events', p', CloserSignal);
    events', p' := Then(s, events', p', CloserUnlock);
  }

  /** The async callback once exit is requested, up to the first shutdown callback. */
  lemma ExitRun(s: Pool, events: seq<Event>, p: Pool) returns (events': seq<Event>, p': Pool)
    requires Reaches(s, events, p)
    requires p.loop == Polling && p.inner == Out && p.signal && p.handle && p.lock == Nobody && p.wantExit
    ensures Reaches(s, events', p')
    ensures p'.loop == Cleaning && p'.lock == Nobody && p'.inner == Out && !p'.handle
  {
    hide Reaches;
    events', p' := Then(s, events, p, Dispatch);
    events', p' := Then(s, events', p', TryLock(true));
    events', p' := Then(s, events', p', CopyQueues);
    events', p' := Then(s, events', p', CheckExit);
    events', p' := Then(s, events', p', LeaveLock);
    events', p' := Then(s, events', p', ReleaseHandle);
    events', p' := Then(s, events', p', LeaveUnlock);
  }

  lemma StartsAt(p: Pool)
    ensures Reaches(p, [], p)
  {
  }

  lemma Then(s: Pool, events: seq<Event>, p: Pool, e: Event) returns (events': seq<Event>, p': Pool)
    requires Reaches(s, events, p) && Can(p, e)
    ensures Reaches(s, events', p') && p' == Do(p, e)
  {
    OneMore(s, events, p, e);
    events', p' := events + [e], Do(p, e);
  }

  /** The push of a user callback up to its signal. */
  lemma CallbackRun(s: Pool, events: seq<Event>, p: Pool) returns (events': seq<Event>, p': Pool)
    requires Reaches(s, events, p) && InUser(p.loop) && p.inner == Out && p.lock == Nobody
    ensures Reaches(s, events', p') && Can(p', CallbackSignal) && p'.handle == p.handle && p'.loop == p.loop
  {
    hide Reaches;
    events', p' := Then(s, events, p, CallbackLock);
    events', p' := Then(s, events', p', CallbackPush);
    events', p' := Then(s, events', p', CallbackUnlock);
  }

  /** The failure: a shutdown callback that pushes a request, as close, connect and unbind do, signals the handle that
      exit has released. */
  lemma ShutdownCallbackSignalsReleasedHandle(threads: set<nat>) returns (events: seq<Event>, p: Pool)
    ensures Reaches(Initial(threads), events, p) && Can(p, CallbackSignal) && !p.handle && p.loop == Cleaning
  {
    hide Reaches;
    var s := Initial(threads);
    StartsAt(s);
    events, p := CloserRun(s, [], s);
    events, p := ExitRun(s, events, p);
    events, p := CallbackRun(s, events, p);
  }

  /** The same failure once the exit callback has returned: the loop still runs the drop callbacks of cancelled writes
      and the packet and timeout callbacks of connections in their graceful shutdown. */
  lemma LateCallbackSignalsReleasedHandle(threads: set<nat>) returns (events: seq<Event>, p: Pool)
    ensures Reaches(Initial(threads), events, p) && Can(p, CallbackSignal) && !p.handle && p.loop == Draining
  {
    hide Reaches;
    var s := Initial(threads);
    StartsAt(s);
    events, p := CloserRun(s, [], s);
    events, p := ExitRun(s, events, p);
    events, p := Then(s, events, p, CleanedUp);
    events, p := CallbackRun(s, events, p);
  }
}
