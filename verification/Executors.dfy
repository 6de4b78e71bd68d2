/** The task queues: LogicWorker (one thread), HandlerExecutor (a bounded pool) and the two layers
    of LogicSystem with their shutdown order.

    One step is one section under the queue's mutex or the end of a task; tasks are named by
    numbers.  `posted`, `started` and `finished` record what happened and decide nothing. */
module Executors {
  import opened Basics

  // ---- One worker: server/common/src/LogicWorker.cpp -------------------------------------------------------

  datatype Worker = Worker(queue: seq<nat>, running: Option<nat>, stopping: bool, exited: bool,
                           posted: seq<nat>, finished: seq<nat>)

  datatype WorkerStep = Accept(task: nat) | Refuse | RequestStop | Take | Exit | Finish

  function AsSeq(running: Option<nat>): seq<nat> {
    match running
    case None => []
    case Some(t) => [t]
  }

  /** Tasks finish in the order they were posted, one at a time, and nothing is lost or repeated. */
  ghost predicate WorkerOk(w: Worker) {
    && w.posted == w.finished + AsSeq(w.running) + w.queue
    && (w.exited ==> w.stopping && w.queue == [] && w.running == None)
  }

  ghost predicate WorkerNext(w: Worker, step: WorkerStep, w': Worker) {
    match step
    case Accept(t) => !w.stopping && w' == w.(queue := w.queue + [t], posted := w.posted + [t])
    case Refuse => w.stopping && w' == w
    case RequestStop => w' == w.(stopping := true)
    case Take => w.running == None && !w.exited && w.queue != [] && w' == w.(queue := w.queue[1..], running := Some(w.queue[0]))
    case Exit => w.running == None && !w.exited && w.queue == [] && w.stopping && w' == w.(exited := true)
    case Finish => w.running.Some? && w' == w.(running := None, finished := w.finished + [w.running.value])
  }

  function NewWorker(): Worker {
    Worker([], None, false, false, [], [])
  }

  lemma WorkerStepKeepsOk(w: Worker, step: WorkerStep, w': Worker)
    requires WorkerOk(w) && WorkerNext(w, step, w')
    ensures WorkerOk(w')
  {
    if step == Take {
      assert w.queue == [w.queue[0]] + w.queue[1..];
    }
  }

  /** Joining waits for the exit, and by then every accepted task has run in post order. */
  lemma JoinedWorkerIsDrained(w: Worker)
    requires WorkerOk(w) && w.exited
    ensures w.finished == w.posted
  {
    assert w.posted == w.finished + [] + [];
  }

  class LogicWorker {
    var queue: seq<nat>
    var running: Option<nat>
    var stopping: bool
    var exited: bool
    ghost var posted: seq<nat>
    ghost var finished: seq<nat>

    constructor ()
      ensures Valid() && View() == NewWorker()
    {
      queue, running, stopping, exited := [], None, false, false;
      posted, finished := [], [];
    }

    ghost function View(): Worker
      reads this
    {
      Worker(queue, running, stopping, exited, posted, finished)
    }

    ghost predicate Valid()
      reads this
    {
      WorkerOk(View())
    }

    method Post(task: nat) returns (ok: bool)
      requires Valid()
      modifies this
      ensures Valid() && ok == !old(stopping)
      ensures WorkerNext(old(View()), if ok then Accept(task) else Refuse, View())
    {
      if stopping {
        return false;
      }
      queue := queue + [task];
      posted := posted + [task];
      return true;
    }

    /** The flag half of Stop; only the first caller goes on to join. */
    method RequestStop() returns (first: bool)
      requires Valid()
      modifies this
      ensures Valid() && first == !old(stopping) && stopping
      ensures WorkerNext(old(View()), WorkerStep.RequestStop, View())
    {
      first := !stopping;
      stopping := true;
    }

    /** One turn of RunLoop, past its wait: take the front task, or leave the loop. */
    method WakeUp() returns (task: Option<nat>)
      requires Valid() && running == None && !exited && (stopping || queue != [])
      modifies this
      ensures Valid() && (task.None? <==> exited)
      ensures WorkerNext(old(View()), if task.Some? then Take else Exit, View())
    {
      WorkerStepKeepsOk(View(), if queue != [] then Take else Exit,
                        if queue != [] then View().(queue := queue[1..], running := Some(queue[0])) else View().(exited := true));
      if queue == [] {
        exited := true;
        return None;
      }
      running := Some(queue[0]);
      queue := queue[1..];
      return running;
    }

    method TaskDone()
      requires Valid() && running.Some?
      modifies this
      ensures Valid() && WorkerNext(old(View()), Finish, View())
    {
      finished := finished + [running.value];
      running := None;
    }
  }

  // ---- Two layers and their shutdown: server/ChatServer/src/LogicSystem.cpp ---------------------------------

  datatype StopAt = NotStopping | StoppingLogic(logicDone: nat) | StoppingDelivery(deliveryDone: nat) | Stopped

  datatype System = System(logic: seq<Worker>, delivery: seq<Worker>, ingressStopping: bool, deliveryStopping: bool, stop: StopAt)

  datatype SystemStep =
      /** PostMsgToQue and PostToUser; the flag may have been read before it changed. */
    | PostLogic(worker: nat, task: nat, sawOpen: bool, accepted: bool)
      /** PostDelivery, called by the task that logic worker `from` runs. */
    | PostDelivery(from: nat, worker: nat, task: nat, accepted: bool)
    | LogicRuns(worker: nat, step: WorkerStep)
    | DeliveryRuns(worker: nat, step: WorkerStep)
    | BeginStop
      /** RequestStop on the next worker of the loop. */
    | StopNext
      /** The join of that worker returns. */
    | JoinNext
    | EndLogicStop
    | EndStop

  predicate IsOwnStep(step: WorkerStep) {
    step in {Take, Exit, Finish}
  }

  ghost predicate PostNext(w: Worker, open: bool, task: nat, accepted: bool, w': Worker) {
    && accepted == (open && !w.stopping)
    && if accepted then WorkerNext(w, Accept(task), w') else w' == w
  }

  ghost predicate SystemNext(s: System, step: SystemStep, s': System) {
    match step
    case PostLogic(i, task, sawOpen, accepted) =>
      && i < |s.logic| == |s'.logic| && (!s.ingressStopping ==> sawOpen)
      && PostNext(s.logic[i], sawOpen, task, accepted, s'.logic[i])
      && s' == s.(logic := s.logic[i := s'.logic[i]])
    case PostDelivery(from, j, task, accepted) =>
      && from < |s.logic| && s.logic[from].running.Some? && j < |s.delivery| == |s'.delivery|
      && PostNext(s.delivery[j], !s.deliveryStopping, task, accepted, s'.delivery[j])
      && s' == s.(delivery := s.delivery[j := s'.delivery[j]])
    case LogicRuns(i, st) =>
      && i < |s.logic| == |s'.logic| && IsOwnStep(st) && WorkerNext(s.logic[i], st, s'.logic[i])
      && s' == s.(logic := s.logic[i := s'.logic[i]])
    case DeliveryRuns(j, st) =>
      && j < |s.delivery| == |s'.delivery| && IsOwnStep(st) && WorkerNext(s.delivery[j], st, s'.delivery[j])
      && s' == s.(delivery := s.delivery[j := s'.delivery[j]])
    case BeginStop => s.stop == NotStopping && s' == s.(ingressStopping := true, stop := StoppingLogic(0))
    case StopNext =>
      match s.stop {
        case StoppingLogic(k) => k < |s.logic| && s' == s.(logic := s.logic[k := s.logic[k].(stopping := true)])
        case StoppingDelivery(k) => k < |s.delivery| && s' == s.(delivery := s.delivery[k := s.delivery[k].(stopping := true)])
        case _ => false
      }
    case JoinNext =>
      match s.stop {
        case StoppingLogic(k) => k < |s.logic| && s.logic[k].exited && s' == s.(stop := StoppingLogic(k + 1))
        case StoppingDelivery(k) => k < |s.delivery| && s.delivery[k].exited && s' == s.(stop := StoppingDelivery(k + 1))
        case _ => false
      }
    case EndLogicStop =>
      s.stop == StoppingLogic(|s.logic|) && s' == s.(deliveryStopping := true, stop := StoppingDelivery(0))
    case EndStop => s.stop == StoppingDelivery(|s.delivery|) && s' == s.(stop := Stopped)
  }

  ghost predicate SystemInit(s: System) {
    && s == System(s.logic, s.delivery, false, false, NotStopping)
    && (forall i :: 0 <= i < |s.logic| ==> s.logic[i] == NewWorker())
    && (forall j :: 0 <= j < |s.delivery| ==> s.delivery[j] == NewWorker())
  }

  ghost predicate IsSystemRun(states: seq<System>, steps: seq<SystemStep>) {
    && |states| == |steps| + 1
    && SystemInit(states[0])
    && forall i :: 0 <= i < |steps| ==> SystemNext(states[i], steps[i], states[i + 1])
  }

  /** Every worker of the first `done` has exited. */
  ghost predicate AllExited(workers: seq<Worker>, done: nat) {
    forall i :: 0 <= i < |workers| && i < done ==> workers[i].exited
  }

  function LogicJoined(s: System): nat {
    match s.stop
    case NotStopping => 0
    case StoppingLogic(k) => k
    case _ => |s.logic|
  }

  function DeliveryJoined(s: System): nat {
    match s.stop
    case StoppingDelivery(k) => k
    case Stopped => |s.delivery|
    case _ => 0
  }

  ghost predicate SystemInv(s: System) {
    && (forall i :: 0 <= i < |s.logic| ==> WorkerOk(s.logic[i]))
    && (forall j :: 0 <= j < |s.delivery| ==> WorkerOk(s.delivery[j]))
    && AllExited(s.logic, LogicJoined(s))
    && AllExited(s.delivery, DeliveryJoined(s))
    && (s.ingressStopping <==> s.stop != NotStopping)
    && (s.deliveryStopping <==> s.stop.StoppingDelivery? || s.stop.Stopped?)
    && (forall j :: 0 <= j < |s.delivery| && s.delivery[j].stopping ==> s.deliveryStopping)
    && (forall i :: 0 <= i < |s.logic| && s.logic[i].stopping ==> s.ingressStopping)
  }

  /** A logic worker moves, is told to stop or takes a task. */
  lemma LogicChangeKeepsInv(s: System, i: nat, w: Worker, s': System)
    requires SystemInv(s) && i < |s.logic| && s' == s.(logic := s.logic[i := w])
    requires WorkerOk(w) && (s.logic[i].exited ==> w.exited) && (w.stopping ==> s.ingressStopping)
    ensures SystemInv(s')
  {
  }

  lemma DeliveryChangeKeepsInv(s: System, j: nat, w: Worker, s': System)
    requires SystemInv(s) && j < |s.delivery| && s' == s.(delivery := s.delivery[j := w])
    requires WorkerOk(w) && (s.delivery[j].exited ==> w.exited) && (w.stopping ==> s.deliveryStopping)
    ensures SystemInv(s')
  {
  }

  lemma StopStepKeepsInv(s: System, step: SystemStep, s': System)
    requires SystemInv(s) && SystemNext(s, step, s')
    requires step in {BeginStop, JoinNext, EndLogicStop, EndStop}
    ensures SystemInv(s')
  {
  }

  lemma SystemStepKeepsInv(s: System, step: SystemStep, s': System)
    requires SystemInv(s) && SystemNext(s, step, s')
    ensures SystemInv(s')
  {
    match step
    case PostLogic(i, task, _, accepted) =>
      if accepted {
        WorkerStepKeepsOk(s.logic[i], Accept(task), s'.logic[i]);
      }
      LogicChangeKeepsInv(s, i, s'.logic[i], s');
    case PostDelivery(_, j, task, accepted) =>
      if accepted {
        WorkerStepKeepsOk(s.delivery[j], Accept(task), s'.delivery[j]);
      }
      DeliveryChangeKeepsInv(s, j, s'.delivery[j], s');
    case LogicRuns(i, st) =>
      WorkerStepKeepsOk(s.logic[i], st, s'.logic[i]);
      LogicChangeKeepsInv(s, i, s'.logic[i], s');
    case DeliveryRuns(j, st) =>
      WorkerStepKeepsOk(s.delivery[j], st, s'.delivery[j]);
      DeliveryChangeKeepsInv(s, j, s'.delivery[j], s');
    case StopNext =>
      if s.stop.StoppingLogic? {
        var i := s.stop.logicDone;
        LogicChangeKeepsInv(s, i, s.logic[i].(stopping := true), s');
      } else {
        var j := s.stop.deliveryDone;
        DeliveryChangeKeepsInv(s, j, s.delivery[j].(stopping := true), s');
      }
    case _ => StopStepKeepsInv(s, step, s');
  }

  lemma {:induction false} SystemRunKeepsInv(states: seq<System>, steps: seq<SystemStep>, i: nat)
    requires IsSystemRun(states, steps) && i < |states|
    ensures SystemInv(states[i])
  {
    if i > 0 {
      SystemRunKeepsInv(states, steps, i - 1);
      SystemStepKeepsInv(states[i - 1], steps[i - 1], states[i]);
    }
  }

  /** When Stop returns, every task that any worker of either layer accepted has run exactly once,
      in the order it was posted there. */
  lemma StopDrainsEverything(states: seq<System>, steps: seq<SystemStep>, i: nat)
    requires IsSystemRun(states, steps) && i < |states| && states[i].stop == Stopped
    ensures forall k :: 0 <= k < |states[i].logic| ==> states[i].logic[k].finished == states[i].logic[k].posted
    ensures forall k :: 0 <= k < |states[i].delivery| ==> states[i].delivery[k].finished == states[i].delivery[k].posted
  {
    SystemRunKeepsInv(states, steps, i);
    forall k | 0 <= k < |states[i].logic| ensures states[i].logic[k].finished == states[i].logic[k].posted {
      JoinedWorkerIsDrained(states[i].logic[k]);
    }
    forall k | 0 <= k < |states[i].delivery| ensures states[i].delivery[k].finished == states[i].delivery[k].posted {
      JoinedWorkerIsDrained(states[i].delivery[k]);
    }
  }

  /** A delivery posted by a running logic task is accepted, also while the system shuts down. */
  lemma DeliveriesAreAccepted(states: seq<System>, steps: seq<SystemStep>, i: nat)
    requires IsSystemRun(states, steps) && i < |steps| && steps[i].PostDelivery?
    ensures steps[i].accepted
  {
    SystemRunKeepsInv(states, steps, i);
    var s := states[i];
    assert SystemNext(s, steps[i], states[i + 1]);
    assert !s.logic[steps[i].from].exited;
    assert !s.deliveryStopping;
  }

  /** After ingress has closed, a worker that was told to stop accepts nothing more. */
  lemma NothingAcceptedAfterStop(states: seq<System>, steps: seq<SystemStep>, i: nat, k: nat)
    requires IsSystemRun(states, steps) && i < |steps| && k < |states[i].logic| && states[i].logic[k].stopping
    ensures k < |states[i + 1].logic|
    ensures states[i + 1].logic[k].posted == states[i].logic[k].posted && states[i + 1].logic[k].stopping
  {
    assert SystemNext(states[i], steps[i], states[i + 1]);
  }

  // ---- The bounded pool: server/GateServer/src/HandlerExecutor.cpp ------------------------------------------

  /** `Settling` is a worker that has run its task and not yet counted it down. */
  datatype Thread = Idle | Running(task: nat) | Settling | Gone

  function Busy(threads: seq<Thread>): nat {
    if threads == [] then 0 else Weight(threads[0]) + Busy(threads[1..])
  }

  function TasksOf(threads: seq<Thread>): multiset<nat> {
    if threads == [] then multiset{} else TaskOf(threads[0]) + TasksOf(threads[1..])
  }

  function Weight(t: Thread): nat {
    if t.Running? || t.Settling? then 1 else 0
  }

  function TaskOf(t: Thread): multiset<nat> {
    if t.Running? then multiset{t.task} else multiset{}
  }

  lemma {:induction false} ThreadUpdate(threads: seq<Thread>, i: nat, t: Thread)
    requires i < |threads|
    ensures Busy(threads[i := t]) + Weight(threads[i]) == Busy(threads) + Weight(t)
    ensures forall x :: TasksOf(threads[i := t])[x] + TaskOf(threads[i])[x] == TasksOf(threads)[x] + TaskOf(t)[x]
  {
    if i == 0 {
      assert threads[0 := t][1..] == threads[1..];
    } else {
      ThreadUpdate(threads[1..], i - 1, t);
      assert threads[i := t][1..] == threads[1..][i - 1 := t];
    }
  }

  lemma {:induction false} AllIdleMeansNoTasks(threads: seq<Thread>)
    requires forall i :: 0 <= i < |threads| ==> threads[i] in {Idle, Gone}
    ensures Busy(threads) == 0 && TasksOf(threads) == multiset{}
  {
    if threads != [] {
      AllIdleMeansNoTasks(threads[1..]);
    }
  }

  /** Each started task is running or has finished once. */
  ghost predicate Accounted(started: seq<nat>, finished: multiset<nat>, threads: seq<Thread>) {
    multiset(started) == finished + TasksOf(threads)
  }

  lemma FrontStarts(started: seq<nat>, queue: seq<nat>)
    requires queue != []
    ensures started + queue == (started + [queue[0]]) + queue[1..]
  {
  }

  lemma ThreadStarts(started: seq<nat>, finished: multiset<nat>, threads: seq<Thread>, i: nat, task: nat)
    requires i < |threads| && threads[i] == Idle && Accounted(started, finished, threads)
    ensures Busy(threads[i := Running(task)]) == Busy(threads) + 1
    ensures Accounted(started + [task], finished, threads[i := Running(task)])
  {
    ThreadUpdate(threads, i, Running(task));
    assert TasksOf(threads[i := Running(task)]) == TasksOf(threads) + multiset{task};
  }

  lemma ThreadFinishes(started: seq<nat>, finished: multiset<nat>, threads: seq<Thread>, i: nat)
    requires i < |threads| && threads[i].Running? && Accounted(started, finished, threads)
    ensures Busy(threads[i := Settling]) == Busy(threads)
    ensures Accounted(started, finished + multiset{threads[i].task}, threads[i := Settling])
  {
    ThreadUpdate(threads, i, Settling);
    assert TasksOf(threads[i := Settling]) + multiset{threads[i].task} == TasksOf(threads);
  }

  lemma ThreadRests(started: seq<nat>, finished: multiset<nat>, threads: seq<Thread>, i: nat, t: Thread)
    requires i < |threads| && threads[i] in {Settling, Idle} && t in {Idle, Gone} && Accounted(started, finished, threads)
    ensures Busy(threads[i := t]) == Busy(threads) - Weight(threads[i])
    ensures Accounted(started, finished, threads[i := t])
  {
    ThreadUpdate(threads, i, t);
    assert TasksOf(threads[i := t]) == TasksOf(threads);
  }

  class HandlerExecutor {
    const capacity: nat
    var queue: seq<nat>
    var outstanding: nat
    var stopping: bool
    var threads: seq<Thread>
    ghost var posted: seq<nat>
    ghost var started: seq<nat>
    ghost var finished: multiset<nat>

    constructor (workerCount: nat, queueCapacity: nat)
      ensures Valid() && !stopping && queue == []
      ensures capacity == if queueCapacity > 0 then queueCapacity else 1
      ensures |threads| == if workerCount > 0 then workerCount else 1
    {
      capacity := if queueCapacity > 0 then queueCapacity else 1;
      queue, outstanding, stopping := [], 0, false;
      var n := if workerCount > 0 then workerCount else 1;
      threads := seq(n, _ => Idle);
      posted, started, finished := [], [], multiset{};
      new;
      AllIdleMeansNoTasks(threads);
    }

    /** Outstanding work is exactly what is queued or running and never exceeds the capacity; tasks
        start in post order, and each started one is running or has finished once. */
    ghost predicate Valid()
      reads this
    {
      && outstanding == |queue| + Busy(threads) <= capacity
      && posted == started + queue
      && Accounted(started, finished, threads)
      && (forall i :: 0 <= i < |threads| && threads[i] == Gone ==> stopping && queue == [])
    }

    method Post(task: nat) returns (ok: bool)
      requires Valid()
      modifies this`queue, this`outstanding, this`posted
      ensures Valid()
      ensures ok == (!stopping && |old(queue)| + Busy(threads) < capacity)
      ensures posted == if ok then old(posted) + [task] else old(posted)
      ensures queue == if ok then old(queue) + [task] else old(queue)
    {
      if stopping {
        return false;
      }
      if outstanding >= capacity {
        return false;
      }
      queue := queue + [task];
      outstanding := outstanding + 1;
      posted := posted + [task];
      return true;
    }

    method RequestStop() returns (first: bool)
      requires Valid()
      modifies this`stopping
      ensures Valid() && stopping && first == !old(stopping)
    {
      first := !stopping;
      stopping := true;
    }

    /** One turn of thread i past its wait: take the front task or leave the loop. */
    method WakeUp(i: nat)
      requires Valid() && i < |threads| && threads[i] == Idle && (stopping || queue != [])
      modifies this`queue, this`threads, this`started
      ensures Valid()
      ensures old(queue) != [] ==> threads == old(threads)[i := Running(old(queue)[0])] && queue == old(queue)[1..]
      ensures old(queue) == [] ==> threads == old(threads)[i := Gone] && queue == []
    {
      if queue == [] {
        ThreadRests(started, finished, threads, i, Gone);
        threads := threads[i := Gone];
      } else {
        StartTask(i);
      }
    }

    method StartTask(i: nat)
      requires Valid() && i < |threads| && threads[i] == Idle && queue != []
      modifies this`queue, this`threads, this`started
      ensures Valid()
      ensures threads == old(threads)[i := Running(old(queue)[0])] && queue == old(queue)[1..]
    {
      var task := queue[0];
      ThreadStarts(started, finished, threads, i, task);
      FrontStarts(started, queue);
      threads := threads[i := Running(task)];
      queue := queue[1..];
      started := started + [task];
    }

    method TaskDone(i: nat)
      requires Valid() && i < |threads| && threads[i].Running?
      modifies this`threads, this`finished
      ensures Valid() && threads == old(threads)[i := Settling]
      ensures finished == old(finished) + multiset{old(threads)[i].task}
    {
      ThreadFinishes(started, finished, threads, i);
      finished := finished + multiset{threads[i].task};
      threads := threads[i := Settling];
    }

    /** The count-down after a task, with its underflow guard. */
    method Settle(i: nat)
      requires Valid() && i < |threads| && threads[i] == Settling
      modifies this`threads, this`outstanding
      ensures Valid() && threads == old(threads)[i := Idle]
      ensures outstanding == old(outstanding) - 1
    {
      ThreadRests(started, finished, threads, i, Idle);
      threads := threads[i := Idle];
      if outstanding > 0 {
        outstanding := outstanding - 1;
      }
    }

    /** Stop has joined every thread: each accepted task has finished exactly once. */
    lemma JoinedPoolIsDrained()
      requires Valid() && |threads| > 0 && forall i :: 0 <= i < |threads| ==> threads[i] == Gone
      ensures finished == multiset(posted) && queue == [] && outstanding == 0
    {
      AllIdleMeansNoTasks(threads);
      assert threads[0] == Gone;
      assert posted == started + [];
    }
  }
}
