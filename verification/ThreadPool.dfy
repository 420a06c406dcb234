/** The thread pool: a queue under a mutex and a condition variable (ThreadPool.cpp), with every lock,
    unlock, wait, wake-up, push and pop a step of its own, in any interleaving. */
module ThreadPools {

  type Task = int

  /** Where a worker is in run() and get_task(). `notified` tells a wake-up by notify_one from a spurious
      one. A worker that has popped knows its task by its place in the order of popping. */
  datatype Worker =
    | Ready
    | Holding
    | Asleep
    | Woken(notified: bool)
    | Popping
    | Popped(place: nat)
    | Running(place: nat)

  /** Where a caller is in execute(). */
  datatype Caller = Out | Entering(task: Task) | Pushing(task: Task) | Notifying | Leaving

  datatype Owner = Free | ByWorker(i: nat) | ByCaller(j: nat)

  datatype Pool = Pool(
    owner: Owner, queue: seq<Task>, workers: seq<Worker>, callers: seq<Caller>,
    submitted: seq<Task>, dequeued: seq<Task>, ran: seq<nat>)

  datatype Step =
    | Call(j: nat, task: Task) | CallerLock(j: nat) | Push(j: nat) | NotifyOne(j: nat, i: nat) | CallerUnlock(j: nat)
    | WorkerLock(i: nat) | Check(i: nat) | Spurious(i: nat) | Pop(i: nat) | WorkerUnlock(i: nat) | Finish(i: nat)

  function Start(workers: nat, callers: nat): Pool {
    Pool(Free, [], seq(workers, _ => Ready), seq(callers, _ => Out), [], [], [])
  }

  predicate Sleeps(p: Pool, i: nat) { i < |p.workers| && p.workers[i] == Asleep }

  /** Whether the step is one the machine can take now. */
  ghost predicate Enabled(p: Pool, s: Step) {
    match s
    case Call(j, _) => j < |p.callers| && p.callers[j] == Out
    case CallerLock(j) => j < |p.callers| && p.callers[j].Entering? && p.owner == Free
    case Push(j) => j < |p.callers| && p.callers[j].Pushing?
    // notify_one wakes some sleeper if there is one
    case NotifyOne(j, i) => j < |p.callers| && p.callers[j] == Notifying && (Sleeps(p, i) || forall k :: !Sleeps(p, k))
    case CallerUnlock(j) => j < |p.callers| && p.callers[j] == Leaving
    case WorkerLock(i) => i < |p.workers| && (p.workers[i] == Ready || p.workers[i].Woken?) && p.owner == Free
    case Check(i) => i < |p.workers| && p.workers[i] == Holding
    case Spurious(i) => Sleeps(p, i)
    case Pop(i) => i < |p.workers| && p.workers[i] == Popping
    case WorkerUnlock(i) => i < |p.workers| && p.workers[i].Popped?
    case Finish(i) => i < |p.workers| && p.workers[i].Running?
  }

  function SetCaller(p: Pool, j: nat, c: Caller): Pool
    requires j < |p.callers|
  {
    p.(callers := p.callers[j := c])
  }

  function SetWorker(p: Pool, i: nat, w: Worker): Pool
    requires i < |p.workers|
  {
    p.(workers := p.workers[i := w])
  }

  ghost function Take(p: Pool, s: Step): Pool {
    if !Enabled(p, s) then p
    else match s
      case Call(j, task) => SetCaller(p, j, Entering(task))
      case CallerLock(j) => SetCaller(p, j, Pushing(p.callers[j].task)).(owner := ByCaller(j))
      case Push(j) =>
        var t := p.callers[j].task;
        SetCaller(p, j, Notifying).(queue := p.queue + [t], submitted := p.submitted + [t])
      case NotifyOne(j, i) =>
        var p1 := SetCaller(p, j, Leaving);
        if Sleeps(p, i) then SetWorker(p1, i, Woken(true)) else p1
      case CallerUnlock(j) => SetCaller(p, j, Out).(owner := Free)
      case WorkerLock(i) => SetWorker(p, i, Holding).(owner := ByWorker(i))
      case Check(i) =>
        // waiting releases the mutex and falls asleep in one step
        if p.queue == [] then SetWorker(p, i, Asleep).(owner := Free) else SetWorker(p, i, Popping)
      case Spurious(i) => SetWorker(p, i, Woken(false))
      case Pop(i) =>
        // front() and pop() of an empty queue would be undefined
        if p.queue == [] then p
        else SetWorker(p, i, Popped(|p.dequeued|)).(queue := p.queue[1..], dequeued := p.dequeued + [p.queue[0]])
      case WorkerUnlock(i) => SetWorker(p, i, Running(p.workers[i].place)).(owner := Free)
      case Finish(i) => SetWorker(p, i, Ready).(ran := p.ran + [p.workers[i].place])
  }

  ghost function Run(workers: nat, callers: nat, steps: seq<Step>): Pool {
    if steps == [] then Start(workers, callers)
    else Take(Run(workers, callers, steps[..|steps| - 1]), steps[|steps| - 1])
  }

  // ---- What holds in every reachable state ----

  predicate InCritical(w: Worker) { w == Holding || w == Popping || w.Popped? }

  predicate CallerInCritical(c: Caller) { c.Pushing? || c == Notifying || c == Leaving }

  /** Exactly the owner is between its lock and its unlock. */
  ghost predicate Excluded(p: Pool) {
    && (forall i :: 0 <= i < |p.workers| ==> (InCritical(p.workers[i]) <==> p.owner == ByWorker(i)))
    && (forall j :: 0 <= j < |p.callers| ==> (CallerInCritical(p.callers[j]) <==> p.owner == ByCaller(j)))
    && (forall i :: 0 <= i < |p.workers| && p.workers[i] == Popping ==> p.queue != [])
  }

  predicate Has(w: Worker, place: nat) { (w.Popped? || w.Running?) && w.place == place }

  ghost predicate Held(p: Pool, place: nat) { exists i :: 0 <= i < |p.workers| && Has(p.workers[i], place) }

  /** Every popped task is either held by one worker, or has been run once. */
  ghost predicate OnceEach(p: Pool) {
    && (forall place: nat :: place < |p.dequeued| ==> (place in p.ran <==> !Held(p, place)))
    && (forall i, place: nat :: 0 <= i < |p.workers| && Has(p.workers[i], place) ==> place < |p.dequeued|)
    && (forall i, k, place: nat ::
          0 <= i < |p.workers| && 0 <= k < |p.workers| && Has(p.workers[i], place) && Has(p.workers[k], place) ==>
            i == k)
    && (forall a :: 0 <= a < |p.ran| ==> p.ran[a] < |p.dequeued|)
    && (forall a, b :: 0 <= a < b < |p.ran| ==> p.ran[a] != p.ran[b])
  }

  predicate IsNotified(w: Worker) { w == Woken(true) }

  function Notified(ws: seq<Worker>): nat {
    if ws == [] then 0 else Notified(ws[..|ws| - 1]) + if IsNotified(ws[|ws| - 1]) then 1 else 0
  }

  /** One task more may be queued while its push is not yet announced, or a worker at work on the queue. */
  function Credit(p: Pool): nat {
    match p.owner
    case ByWorker(i) => if i < |p.workers| && (p.workers[i] == Holding || p.workers[i] == Popping) then 1 else 0
    case ByCaller(j) => if j < |p.callers| && p.callers[j] == Notifying then 1 else 0
    case Free => 0
  }

  ghost predicate NoLostWakeup(p: Pool) {
    (exists k :: Sleeps(p, k)) ==> |p.queue| <= Notified(p.workers) + Credit(p)
  }

  ghost predicate Inv(p: Pool) {
    Excluded(p) && p.submitted == p.dequeued + p.queue && OnceEach(p) && NoLostWakeup(p)
  }

  lemma {:induction false} NotifiedUpdate(ws: seq<Worker>, i: nat, w: Worker)
    requires i < |ws|
    ensures Notified(ws[i := w]) + (if IsNotified(ws[i]) then 1 else 0)
          == Notified(ws) + (if IsNotified(w) then 1 else 0)
  {
    var front := ws[..|ws| - 1];
    if i == |ws| - 1 {
      assert ws[i := w][..|ws| - 1] == front;
    } else {
      assert ws[i := w][..|ws| - 1] == front[i := w];
      NotifiedUpdate(front, i, w);
    }
  }

  lemma {:induction false} NobodyNotified(n: nat)
    ensures Notified(seq(n, _ => Ready)) == 0
  {
    if n > 0 {
      assert seq(n, _ => Ready)[..n - 1] == seq(n - 1, _ => Ready);
      NobodyNotified(n - 1);
    }
  }

  lemma StartInv(n: nat, m: nat)
    ensures Inv(Start(n, m))
  {
    NobodyNotified(n);
  }

  lemma ExcludedKept(p: Pool, s: Step)
    requires Inv(p)
    ensures Excluded(Take(p, s))
  {
  }

  lemma QueueKept(p: Pool, s: Step)
    requires Inv(p)
    ensures var p' := Take(p, s); p'.submitted == p'.dequeued + p'.queue
  {
    hide Excluded, OnceEach, NoLostWakeup;
    match s {
      case Push(j) =>
        if Enabled(p, s) {
          assert p.dequeued + p.queue + [p.callers[j].task] == p.dequeued + (p.queue + [p.callers[j].task]);
        }
      case Pop(i) =>
        if p.queue != [] {
          assert p.queue == [p.queue[0]] + p.queue[1..];
          assert p.dequeued + ([p.queue[0]] + p.queue[1..]) == p.dequeued + [p.queue[0]] + p.queue[1..];
        }
      case _ =>
    }
  }

  lemma OnceKept(p: Pool, s: Step)
    requires Inv(p)
    ensures OnceEach(Take(p, s))
  {
    hide NoLostWakeup;
    if Enabled(p, s) {
      match s {
        case Pop(i) => PopOnce(p, i);
        case Finish(i) => FinishOnce(p, i);
        case _ => OtherOnce(p, s);
      }
    }
  }

  lemma OtherOnce(p: Pool, s: Step)
    requires OnceEach(p) && Enabled(p, s) && !s.Pop? && !s.Finish?
    ensures OnceEach(Take(p, s))
  {
    var p' := Take(p, s);
    forall k, place: nat | 0 <= k < |p.workers| ensures Has(p'.workers[k], place) <==> Has(p.workers[k], place) {
    }
    forall place: nat ensures Held(p', place) <==> Held(p, place) {
    }
  }

  lemma PopOnce(p: Pool, i: nat)
    requires Excluded(p) && OnceEach(p) && Enabled(p, Pop(i))
    ensures OnceEach(Take(p, Pop(i)))
  {
    var p' := Take(p, Pop(i));
    assert Has(p'.workers[i], |p.dequeued|);
    forall place: nat | place < |p.dequeued| ensures Held(p', place) <==> Held(p, place) {
      if Held(p, place) {
        var k :| 0 <= k < |p.workers| && Has(p.workers[k], place);
        assert Has(p'.workers[k], place);
      }
    }
  }

  lemma FinishOnce(p: Pool, i: nat)
    requires OnceEach(p) && Enabled(p, Finish(i))
    ensures OnceEach(Take(p, Finish(i)))
  {
    var p', done := Take(p, Finish(i)), p.workers[i].place;
    assert Has(p.workers[i], done) && Held(p, done);
    forall place: nat | place < |p.dequeued| ensures Held(p', place) <==> Held(p, place) && place != done {
      if Held(p, place) && place != done {
        var k :| 0 <= k < |p.workers| && Has(p.workers[k], place);
        assert Has(p'.workers[k], place);
      }
    }
  }

  lemma WakeupKept(p: Pool, s: Step)
    requires Inv(p)
    ensures NoLostWakeup(Take(p, s))
  {
    hide OnceEach;
    if Enabled(p, s) {
      match s {
        case Call(_, _) => CallerWakeup(p, s);
        case CallerLock(_) => CallerWakeup(p, s);
        case Push(_) => CallerWakeup(p, s);
        case CallerUnlock(_) => CallerWakeup(p, s);
        case NotifyOne(j, i) => NotifyWakeup(p, j, i);
        case _ => WorkerWakeup(p, s);
      }
    }
  }

  lemma CallerWakeup(p: Pool, s: Step)
    requires Excluded(p) && NoLostWakeup(p) && Enabled(p, s)
    requires s.Call? || s.CallerLock? || s.Push? || s.CallerUnlock?
    ensures NoLostWakeup(Take(p, s))
  {
    var p' := Take(p, s);
    assert forall k :: Sleeps(p', k) ==> Sleeps(p, k);
  }

  lemma NotifyWakeup(p: Pool, j: nat, i: nat)
    requires Excluded(p) && NoLostWakeup(p) && Enabled(p, NotifyOne(j, i))
    ensures NoLostWakeup(Take(p, NotifyOne(j, i)))
  {
    var p' := Take(p, NotifyOne(j, i));
    assert forall k :: Sleeps(p', k) ==> Sleeps(p, k);
    if Sleeps(p, i) {
      NotifiedUpdate(p.workers, i, Woken(true));
    }
  }

  lemma WorkerWakeup(p: Pool, s: Step)
    requires Excluded(p) && NoLostWakeup(p) && Enabled(p, s)
    requires s.WorkerLock? || s.Check? || s.Spurious? || s.Pop? || s.WorkerUnlock? || s.Finish?
    ensures NoLostWakeup(Take(p, s))
  {
    var p' := Take(p, s);
    NotifiedUpdate(p.workers, s.i, p'.workers[s.i]);
    assert forall k :: Sleeps(p', k) ==> Sleeps(p, k) || (s.Check? && p.queue == []);
  }

  /** Every step of every thread keeps all of it. */
  lemma {:induction false} RunKeeps(n: nat, m: nat, steps: seq<Step>)
    ensures Inv(Run(n, m, steps)) && |Run(n, m, steps).workers| == n
  {
    hide Inv, Take;
    if steps == [] {
      StartInv(n, m);
    } else {
      var p, s := Run(n, m, steps[..|steps| - 1]), steps[|steps| - 1];
      RunKeeps(n, m, steps[..|steps| - 1]);
      StepKeeps(p, s);
    }
  }

  lemma StepKeeps(p: Pool, s: Step)
    requires Inv(p)
    ensures Inv(Take(p, s)) && |Take(p, s).workers| == |p.workers|
  {
    hide Excluded, OnceEach, NoLostWakeup;
    ExcludedKept(p, s);
    QueueKept(p, s);
    OnceKept(p, s);
    WakeupKept(p, s);
  }

  // ---- What the pool promises ----

  /** In every interleaving, tasks are popped in the order they were submitted, none is lost or invented,
      and each popped task is held by exactly one worker until it has been run exactly once. */
  lemma TasksOnceInOrder(n: nat, m: nat, steps: seq<Step>)
    ensures var p := Run(n, m, steps);
            && p.submitted == p.dequeued + p.queue
            && (forall place: nat :: place < |p.dequeued| ==> (place in p.ran <==> !Held(p, place)))
            && (forall i, k, place: nat ::
                  0 <= i < |p.workers| && 0 <= k < |p.workers| ==>
                    Has(p.workers[i], place) && Has(p.workers[k], place) ==> i == k)
            && (forall a, b :: 0 <= a < b < |p.ran| ==> p.ran[a] != p.ran[b])
  {
    hide Run, Excluded, NoLostWakeup;
    RunKeeps(n, m, steps);
  }

  /** No wake-up is lost: whenever the mutex is free and some worker sleeps without having been notified,
      every queued task has a notified worker on its way, spurious wake-ups or not; so with a task queued,
      not all workers sleep. */
  lemma NoWakeupLost(n: nat, m: nat, steps: seq<Step>)
    ensures var p := Run(n, m, steps);
            && ((exists k :: Sleeps(p, k)) && p.owner == Free ==> |p.queue| <= Notified(p.workers))
            && ((exists k :: Sleeps(p, k)) ==> |p.queue| <= Notified(p.workers) + 1)
            && (p.owner == Free && p.queue != [] && n > 0 ==> exists k :: 0 <= k < n && !Sleeps(p, k))
  {
    hide Run, Excluded, OnceEach;
    RunKeeps(n, m, steps);
    var p := Run(n, m, steps);
    SomeoneNotified(p.workers);
    if Notified(p.workers) > 0 {
      var k :| 0 <= k < |p.workers| && IsNotified(p.workers[k]);
      assert !Sleeps(p, k);
    } else {
      assert p.owner == Free && p.queue != [] ==> !Sleeps(p, 0);
    }
  }

  lemma {:induction false} SomeoneNotified(ws: seq<Worker>)
    ensures Notified(ws) > 0 ==> exists k :: 0 <= k < |ws| && IsNotified(ws[k])
  {
    if ws != [] {
      SomeoneNotified(ws[..|ws| - 1]);
      if Notified(ws[..|ws| - 1]) > 0 {
        var k :| 0 <= k < |ws| - 1 && IsNotified(ws[..|ws| - 1][k]);
        assert IsNotified(ws[k]);
      } else {
        assert IsNotified(ws[|ws| - 1]) || Notified(ws) == 0;
      }
    }
  }

  /** At most one thread is between lock and unlock, and a queue is never popped empty. */
  lemma MutualExclusion(n: nat, m: nat, steps: seq<Step>)
    ensures var p := Run(n, m, steps);
            && (forall i, k :: 0 <= i < |p.workers| && 0 <= k < |p.workers| && i != k && InCritical(p.workers[i]) ==>
                  !InCritical(p.workers[k]))
            && (forall i, j :: 0 <= i < |p.workers| && 0 <= j < |p.callers| && InCritical(p.workers[i]) ==>
                  !CallerInCritical(p.callers[j]))
            && (forall i :: 0 <= i < |p.workers| && p.workers[i] == Popping ==> p.queue != [])
  {
    hide Run, OnceEach, NoLostWakeup;
    RunKeeps(n, m, steps);
  }
}
