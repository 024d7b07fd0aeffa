/** CworkQueue: a queue of tasks behind one lock and one condition variable, with any number of workers. A section under
    the lock is one event; an arbitrary sequence of enabled events is one interleaving. */
module WorkQueues {
  import opened Bytes

  type Task = nat

  /** Where a worker is: about to take the lock in getNext, in the wait, running the `nth` task that was started, or
      gone. */
  datatype Pc = Ready | Waiting | Running(nth: nat) | Gone

  datatype Queue = Queue(
    tasks: seq<Task>,
    exit: bool,
    workers: map<nat, Pc>,
    pushed: seq<Task>,
    started: seq<Task>,
    finished: set<nat>)

  /** `wake` is the worker that notify_one picks among those in the wait. */
  datatype Event =
    | Push(task: Task, wake: nat)
    | Next(w: nat)
    | Finish(w: nat)
    | Spurious(w: nat)
    | SetExit

  function In(workers: map<nat, Pc>, pc: Pc): set<nat> {
    set w | w in workers && workers[w] == pc
  }

  predicate At(q: Queue, w: nat, pc: Pc) {
    w in q.workers && q.workers[w] == pc
  }

  predicate Can(q: Queue, e: Event) {
    match e
    case Push(_, wake) => In(q.workers, Waiting) != {} ==> At(q, wake, Waiting)
    case Next(w) => At(q, w, Ready)
    case Finish(w) => w in q.workers && q.workers[w].Running?
    case Spurious(w) => At(q, w, Waiting)
    case SetExit => true
  }

  /** notify_one. */
  function WakeOne(workers: map<nat, Pc>, wake: nat): map<nat, Pc> {
    if In(workers, Waiting) == {} then workers else workers[wake := Ready]
  }

  /** notify_all. */
  function WakeAll(workers: map<nat, Pc>): map<nat, Pc> {
    map w | w in workers :: if workers[w] == Waiting then Ready else workers[w]
  }

  function Do(q: Queue, e: Event): Queue
    requires Can(q, e)
  {
    match e
    case Push(t, wake) =>
      q.(tasks := q.tasks + [t], pushed := q.pushed + [t], workers := WakeOne(q.workers, wake))
    case Next(w) =>
      if q.exit then q.(workers := q.workers[w := Gone])
      else if q.tasks == [] then q.(workers := q.workers[w := Waiting])
      else
        q.(tasks := q.tasks[1..], started := q.started + [q.tasks[0]], workers := q.workers[w := Running(|q.started|)])
    case Finish(w) =>
      q.(finished := q.finished + {q.workers[w].nth}, workers := q.workers[w := Ready])
    case Spurious(w) => q.(workers := q.workers[w := Ready])
    case SetExit => q.(exit := true, workers := WakeAll(q.workers))
  }

  function Initial(workers: set<nat>): Queue {
    Queue([], false, map w | w in workers :: Ready, [], [], {})
  }

  /** No lost wakeup: a worker sits in the wait only while the ready workers suffice for the queued tasks, and none does
      once exit is requested. */
  predicate Awake(q: Queue) {
    In(q.workers, Waiting) == {} || (!q.exit && |q.tasks| <= |In(q.workers, Ready)|)
  }

  /** The nth task is in the hands of a worker. */
  ghost predicate InHands(workers: map<nat, Pc>, nth: nat) {
    exists w :: w in workers && workers[w] == Running(nth)
  }

  /** Tasks are started in the order in which they were pushed; each started task is finished or in the hands of
      exactly one worker. */
  ghost predicate Conserved(q: Queue) {
    && q.pushed == q.started + q.tasks
    && (forall w :: w in q.workers && q.workers[w].Running? ==>
      q.workers[w].nth < |q.started| && q.workers[w].nth !in q.finished)
    && (forall v, w :: v in q.workers && w in q.workers && v != w && q.workers[v].Running? ==>
      q.workers[v] != q.workers[w])
    && (forall n :: n in q.finished ==> n < |q.started|)
    && (forall n :: 0 <= n < |q.started| && n !in q.finished ==> InHands(q.workers, n))
  }

  ghost predicate Inv(q: Queue) {
    Awake(q) && Conserved(q)
  }

  lemma InSet(ws: map<nat, Pc>, w: nat, pc: Pc, to: Pc)
    requires w in ws && to != ws[w]
    ensures In(ws[w := to], to) == In(ws, to) + {w} && |In(ws[w := to], to)| == |In(ws, to)| + 1
    ensures In(ws[w := to], ws[w]) == In(ws, ws[w]) - {w} && |In(ws[w := to], ws[w])| == |In(ws, ws[w])| - 1
    ensures pc != to && pc != ws[w] ==> In(ws[w := to], pc) == In(ws, pc)
  {
    assert In(ws[w := to], to) == In(ws, to) + {w};
    assert In(ws[w := to], ws[w]) == In(ws, ws[w]) - {w};
    assert pc != to && pc != ws[w] ==> In(ws[w := to], pc) == In(ws, pc);
  }

  lemma PushAwake(q: Queue, t: Task, wake: nat)
    requires Awake(q) && Can(q, Push(t, wake))
    ensures Awake(Do(q, Push(t, wake)))
  {
    if In(q.workers, Waiting) != {} {
      InSet(q.workers, wake, Waiting, Ready);
    }
  }

  lemma NextAwake(q: Queue, w: nat)
    requires Awake(q) && Can(q, Next(w))
    ensures Awake(Do(q, Next(w)))
  {
    var to := if q.exit then Gone else if q.tasks == [] then Waiting else Running(|q.started|);
    InSet(q.workers, w, Waiting, to);
  }

  lemma WakeAllAwake(ws: map<nat, Pc>)
    ensures In(WakeAll(ws), Waiting) == {}
  {
  }

  lemma DoAwake(q: Queue, e: Event)
    requires Awake(q) && Can(q, e)
    ensures Awake(Do(q, e))
  {
    hide Awake;
    match e
    case Push(t, wake) => PushAwake(q, t, wake);
    case Next(w) => NextAwake(q, w);
    case Finish(w) => ReadyAwake(q, Do(q, e), w);
    case Spurious(w) => ReadyAwake(q, Do(q, e), w);
    case SetExit => ExitAwake(q);
  }

  lemma ReadyAwake(q: Queue, q': Queue, w: nat)
    requires Awake(q) && w in q.workers && q.workers[w] != Ready
    requires q'.tasks == q.tasks && q'.exit == q.exit && q'.workers == q.workers[w := Ready]
    ensures Awake(q')
  {
    InSet(q.workers, w, Waiting, Ready);
  }

  lemma ExitAwake(q: Queue)
    ensures Awake(Do(q, SetExit))
  {
    WakeAllAwake(q.workers);
  }

  /** Workers that run no task do not matter. */
  lemma SameHands(q: Queue, q': Queue)
    requires Conserved(q)
    requires q'.started == q.started && q'.finished == q.finished && q'.pushed == q'.started + q'.tasks
    requires q'.workers.Keys == q.workers.Keys
    requires forall w :: w in q.workers && (q.workers[w].Running? || q'.workers[w].Running?) ==>
      q'.workers[w] == q.workers[w]
    ensures Conserved(q')
  {
    forall n | 0 <= n < |q.started| && n !in q.finished
      ensures InHands(q'.workers, n)
    {
      assert InHands(q.workers, n);
      var w :| w in q.workers && q.workers[w] == Running(n);
      assert q'.workers[w] == Running(n);
    }
  }

  lemma StartConserves(q: Queue, w: nat)
    requires Conserved(q) && Can(q, Next(w)) && !q.exit && q.tasks != []
    ensures Conserved(Do(q, Next(w)))
  {
    var q' := Do(q, Next(w));
    assert q'.pushed == q'.started + q'.tasks;
    assert q'.workers[w] == Running(|q.started|);
    forall n | 0 <= n < |q'.started| && n !in q'.finished
      ensures InHands(q'.workers, n)
    {
      if n < |q.started| {
        assert InHands(q.workers, n);
        var v :| v in q.workers && q.workers[v] == Running(n);
        assert q'.workers[v] == Running(n);
      }
    }
  }

  lemma FinishConserves(q: Queue, w: nat)
    requires Conserved(q) && Can(q, Finish(w))
    ensures Conserved(Do(q, Finish(w)))
  {
    var q' := Do(q, Finish(w));
    forall n | 0 <= n < |q'.started| && n !in q'.finished
      ensures InHands(q'.workers, n)
    {
      assert InHands(q.workers, n);
      var v :| v in q.workers && q.workers[v] == Running(n);
      assert q'.workers[v] == Running(n);
    }
  }

  lemma DoConserves(q: Queue, e: Event)
    requires Conserved(q) && Can(q, e)
    ensures Conserved(Do(q, e))
  {
    match e
    case Push(t, wake) =>
      Assoc(q.started, q.tasks, [t]);
      SameHands(q, Do(q, e));
    case Next(w) =>
      if q.exit || q.tasks == [] {
        SameHands(q, Do(q, e));
      } else {
        StartConserves(q, w);
      }
    case Finish(w) => FinishConserves(q, w);
    case Spurious(w) => SameHands(q, Do(q, e));
    case SetExit => SameHands(q, Do(q, e));
  }

  predicate Reaches(q: Queue, events: seq<Event>, r: Queue)
    decreases |events|
  {
    if events == [] then r == q else Can(q, events[0]) && Reaches(Do(q, events[0]), events[1..], r)
  }

  lemma {:induction false} ReachesInv(q: Queue, events: seq<Event>, r: Queue)
    requires Inv(q) && Reaches(q, events, r)
    ensures Inv(r)
    decreases |events|
  {
    hide Awake, Conserved, Can, Do;
    if events != [] {
      DoAwake(q, events[0]);
      DoConserves(q, events[0]);
      ReachesInv(Do(q, events[0]), events[1..], r);
    }
  }

  lemma InitialInv(workers: set<nat>)
    ensures Inv(Initial(workers))
  {
    assert In(Initial(workers).workers, Waiting) == {};
  }

  /** Every worker is running a task or gone, or some worker is about to look at the queue. */
  predicate NoneIdle(q: Queue) {
    In(q.workers, Ready) != {} || forall w :: w in q.workers ==> q.workers[w].Running? || q.workers[w] == Gone
  }

  /** In every interleaving: tasks start in the order in which they were pushed and at most once, none is lost, and a
      task waits in the queue only while a worker is about to take it or every worker is busy. */
  lemma NoLostWakeup(workers: set<nat>, events: seq<Event>, q: Queue)
    requires Reaches(Initial(workers), events, q)
    ensures Inv(q)
    ensures q.pushed == q.started + q.tasks
    ensures forall n :: 0 <= n < |q.started| ==> (n in q.finished <==> !InHands(q.workers, n))
    ensures q.tasks != [] || q.exit ==> NoneIdle(q)
  {
    hide Reaches;
    InitialInv(workers);
    ReachesInv(Initial(workers), events, q);
    if In(q.workers, Waiting) == {} && In(q.workers, Ready) == {} {
      forall w | w in q.workers
        ensures q.workers[w].Running? || q.workers[w] == Gone
      {
        assert w !in In(q.workers, Waiting) && w !in In(q.workers, Ready);
      }
    }
  }

  predicate NoneGone(q: Queue, workers: set<nat>) {
    q.workers.Keys == workers && (!q.exit ==> forall w :: w in q.workers ==> q.workers[w] != Gone)
  }

  lemma DoNoneGone(q: Queue, e: Event)
    requires Can(q, e) && NoneGone(q, q.workers.Keys)
    ensures NoneGone(Do(q, e), q.workers.Keys)
  {
  }

  lemma {:induction false} NoneGoneYet(q: Queue, events: seq<Event>, r: Queue)
    requires NoneGone(q, q.workers.Keys) && Reaches(q, events, r)
    ensures NoneGone(r, q.workers.Keys)
    decreases |events|
  {
    hide NoneGone, Can, Do;
    if events != [] {
      DoNoneGone(q, events[0]);
      NoneGoneKeys(Do(q, events[0]), q.workers.Keys);
      NoneGoneYet(Do(q, events[0]), events[1..], r);
    }
  }

  lemma NoneGoneKeys(q: Queue, workers: set<nat>)
    requires NoneGone(q, workers)
    ensures q.workers.Keys == workers
  {
  }

  /** No worker leaves before exit is requested, whatever it finds in the queue and however often. */
  lemma WorkersStay(workers: set<nat>, events: seq<Event>, q: Queue, w: nat)
    requires Reaches(Initial(workers), events, q) && w in workers && !q.exit
    ensures w in q.workers && q.workers[w] != Gone
  {
    hide Reaches;
    assert Initial(workers).workers.Keys == workers;
    NoneGoneYet(Initial(workers), events, q);
  }

  /** Steps that a worker still has before it is gone, once exit is requested. */
  function StepsLeft(pc: Pc): nat {
    match pc
    case Gone => 0
    case Ready => 1
    case Waiting => 2
    case Running(_) => 2
  }

  function Step(q: Queue, w: nat): Event {
    if At(q, w, Ready) then Next(w) else Finish(w)
  }

  /** Exit: no task is started any more, and every worker that is not gone can act, and by that comes closer to the end
      of its thread, while whatever else happens takes none further away from it. */
  lemma WorkersLeave(q: Queue, w: nat, e: Event)
    requires Awake(q) && q.exit && w in q.workers && q.workers[w] != Gone && Can(q, e)
    ensures Can(q, Step(q, w))
    ensures w in Do(q, Step(q, w)).workers && StepsLeft(Do(q, Step(q, w)).workers[w]) < StepsLeft(q.workers[w])
    ensures Do(q, e).exit && Do(q, e).started == q.started && w in Do(q, e).workers
    ensures StepsLeft(Do(q, e).workers[w]) <= StepsLeft(q.workers[w])
  {
    assert w in In(q.workers, Waiting) <==> q.workers[w] == Waiting;
  }

  lemma {:induction false} NothingStartsAfterExit(q: Queue, events: seq<Event>, r: Queue)
    requires q.exit && Reaches(q, events, r)
    ensures r.exit && r.started == q.started && q.tasks <= r.tasks
    decreases |events|
  {
    hide Can;
    if events != [] {
      DoAfterExit(q, events[0]);
      NothingStartsAfterExit(Do(q, events[0]), events[1..], r);
    }
  }

  lemma DoAfterExit(q: Queue, e: Event)
    requires q.exit && Can(q, e)
    ensures Do(q, e).exit && Do(q, e).started == q.started && q.tasks <= Do(q, e).tasks
  {
  }

  /** What a worker does when it has the lock. */
  datatype Turn = Leave | Wait | Run(task: Task)

  class WorkQueue {
    var tasks: seq<Task>
    var exit: bool

    ghost var workers: map<nat, Pc>
    ghost var pushed: seq<Task>
    ghost var started: seq<Task>
    ghost var finished: set<nat>

    ghost function Abs(): Queue
      reads this
    {
      Queue(tasks, exit, workers, pushed, started, finished)
    }

    constructor (ghost threads: set<nat>)
      ensures Abs() == Initial(threads) && Inv(Abs())
    {
      tasks, exit := [], false;
      workers := map w | w in threads :: Ready;
      pushed, started, finished := [], [], {};
      new;
      InitialInv(threads);
    }

    /** pushTask; the condition variable wakes `wake` if any worker waits. */
    method PushTask(task: Task, ghost wake: nat)
      requires Inv(Abs()) && Can(Abs(), Push(task, wake))
      modifies this
      ensures Inv(Abs()) && Abs() == Do(old(Abs()), Push(task, wake))
    {
      DoInv(Abs(), Push(task, wake));
      tasks := tasks + [task];
      pushed := pushed + [task];
      workers := WakeOne(workers, wake);
    }

    /** The loop of getNext from where a worker has the lock to where it gives it up. */
    method GetNext(ghost w: nat) returns (turn: Turn)
      requires Inv(Abs()) && Can(Abs(), Next(w))
      modifies this
      ensures Inv(Abs()) && Abs() == Do(old(Abs()), Next(w))
      ensures turn == if exit then Leave else if old(tasks) == [] then Wait else Run(old(tasks)[0])
    {
      DoInv(Abs(), Next(w));
      if !exit {
        if tasks == [] {
          workers := workers[w := Waiting];
          return Wait;
        }
        var task := tasks[0];
        workers := workers[w := Running(|started|)];
        started := started + [task];
        tasks := tasks[1..];
        return Run(task);
      }
      workers := workers[w := Gone];
      return Leave;
    }

    method SetExit()
      requires Inv(Abs())
      modifies this
      ensures Inv(Abs()) && Abs() == Do(old(Abs()), Event.SetExit)
    {
      DoInv(Abs(), Event.SetExit);
      exit := true;
      workers := WakeAll(workers);
    }
  }

  lemma DoInv(q: Queue, e: Event)
    requires Inv(q) && Can(q, e)
    ensures Inv(Do(q, e))
  {
    DoAwake(q, e);
    DoConserves(q, e);
  }
}
