/** That the shutdown of Executors comes to an end: every run of the two layers can be continued until Stop
    returns, and by then exactly the tasks accepted so far have run. */
module ExecutorsProgress {
  import opened Basics
  import opened Executors

  datatype Path = Here | Onward(before: Path, step: SystemStep, state: System)

  function End(s: System, p: Path): System {
    match p
    case Here => s
    case Onward(_, _, t) => t
  }

  ghost predicate IsPath(s: System, p: Path) {
    match p
    case Here => true
    case Onward(before, step, t) => IsPath(s, before) && SystemNext(End(s, before), step, t)
  }

  ghost predicate LeadsTo(s: System, t: System) {
    exists p :: IsPath(s, p) && End(s, p) == t
  }

  lemma Stay(s: System)
    ensures LeadsTo(s, s)
  {
    assert IsPath(s, Here) && End(s, Here) == s;
  }

  lemma Then(s: System, t: System, step: SystemStep, t': System)
    requires LeadsTo(s, t) && SystemNext(t, step, t')
    ensures LeadsTo(s, t')
  {
    var p :| IsPath(s, p) && End(s, p) == t;
    assert IsPath(s, Onward(p, step, t'));
  }

  ghost predicate Continues(states: seq<System>, steps: seq<SystemStep>, states': seq<System>, steps': seq<SystemStep>) {
    IsSystemRun(states', steps') && states <= states' && steps <= steps'
  }

  lemma RunExtends(states: seq<System>, steps: seq<SystemStep>, step: SystemStep, t: System)
    requires IsSystemRun(states, steps) && SystemNext(states[|states| - 1], step, t)
    ensures IsSystemRun(states + [t], steps + [step])
  {
  }

  lemma {:induction false} PathContinues(states: seq<System>, steps: seq<SystemStep>, p: Path)
    returns (states': seq<System>, steps': seq<SystemStep>)
    requires IsSystemRun(states, steps) && IsPath(states[|states| - 1], p)
    ensures Continues(states, steps, states', steps') && states'[|states'| - 1] == End(states[|states| - 1], p)
  {
    match p
    case Here =>
      states', steps' := states, steps;
    case Onward(before, step, t) =>
      states', steps' := PathContinues(states, steps, before);
      RunExtends(states', steps', step, t);
      states', steps' := states' + [t], steps' + [step];
  }

  // ---- One worker ------------------------------------------------------------------------------------------

  /** What a worker that is to leave its loop does next. */
  function Turn(w: Worker): (WorkerStep, Worker)
    requires !w.exited
  {
    if w.running.Some? then (Finish, w.(running := None, finished := w.finished + [w.running.value]))
    else if w.queue != [] then (Take, w.(queue := w.queue[1..], running := Some(w.queue[0])))
    else (Exit, w.(exited := true))
  }

  /** The same tasks were accepted by the same workers. */
  ghost predicate SamePosts(a: seq<Worker>, b: seq<Worker>) {
    |a| == |b| && forall i :: 0 <= i < |a| ==> a[i].posted == b[i].posted
  }

  /** A logic worker that was told to stop works off its queue and leaves. */
  lemma {:induction false} LogicDrains(s: System, t: System, i: nat) returns (t': System)
    requires LeadsTo(s, t) && i < |t.logic| && t.logic[i].stopping
    ensures LeadsTo(s, t') && |t'.logic| == |t.logic| && t' == t.(logic := t.logic[i := t'.logic[i]])
    ensures t'.logic[i].exited && t'.logic[i].posted == t.logic[i].posted
    decreases !t.logic[i].exited, |t.logic[i].queue|, t.logic[i].running.Some?
  {
    if t.logic[i].exited {
      t' := t;
      assert t.logic == t.logic[i := t.logic[i]];
    } else {
      var (step, w) := Turn(t.logic[i]);
      var t1 := t.(logic := t.logic[i := w]);
      Then(s, t, LogicRuns(i, step), t1);
      t' := LogicDrains(s, t1, i);
      assert t.logic[i := w][i := t'.logic[i]] == t.logic[i := t'.logic[i]];
    }
  }

  lemma {:induction false} DeliveryDrains(s: System, t: System, j: nat) returns (t': System)
    requires LeadsTo(s, t) && j < |t.delivery| && t.delivery[j].stopping
    ensures LeadsTo(s, t') && |t'.delivery| == |t.delivery| && t' == t.(delivery := t.delivery[j := t'.delivery[j]])
    ensures t'.delivery[j].exited && t'.delivery[j].posted == t.delivery[j].posted
    decreases !t.delivery[j].exited, |t.delivery[j].queue|, t.delivery[j].running.Some?
  {
    if t.delivery[j].exited {
      t' := t;
      assert t.delivery == t.delivery[j := t.delivery[j]];
    } else {
      var (step, w) := Turn(t.delivery[j]);
      var t1 := t.(delivery := t.delivery[j := w]);
      Then(s, t, DeliveryRuns(j, step), t1);
      t' := DeliveryDrains(s, t1, j);
      assert t.delivery[j := w][j := t'.delivery[j]] == t.delivery[j := t'.delivery[j]];
    }
  }

  // ---- The two loops of Stop -------------------------------------------------------------------------------

  /** RequestStop and join of one worker. */
  lemma LogicWorkerStops(s: System, t: System, k: nat) returns (t': System)
    requires LeadsTo(s, t) && t.stop == StoppingLogic(k) && k < |t.logic|
    ensures LeadsTo(s, t') && t' == t.(logic := t'.logic, stop := StoppingLogic(k + 1)) && SamePosts(t.logic, t'.logic)
  {
    var t1 := t.(logic := t.logic[k := t.logic[k].(stopping := true)]);
    Then(s, t, StopNext, t1);
    var t2 := LogicDrains(s, t1, k);
    t' := LogicJoins(s, t2, k);
  }

  lemma LogicJoins(s: System, t: System, k: nat) returns (t': System)
    requires LeadsTo(s, t) && t.stop == StoppingLogic(k) && k < |t.logic| && t.logic[k].exited
    ensures LeadsTo(s, t') && t' == t.(stop := StoppingLogic(k + 1))
  {
    t' := t.(stop := StoppingLogic(k + 1));
    Then(s, t, JoinNext, t');
  }

  lemma DeliveryWorkerStops(s: System, t: System, k: nat) returns (t': System)
    requires LeadsTo(s, t) && t.stop == StoppingDelivery(k) && k < |t.delivery|
    ensures LeadsTo(s, t') && t' == t.(delivery := t'.delivery, stop := StoppingDelivery(k + 1)) && SamePosts(t.delivery, t'.delivery)
  {
    var t1 := t.(delivery := t.delivery[k := t.delivery[k].(stopping := true)]);
    Then(s, t, StopNext, t1);
    var t2 := DeliveryDrains(s, t1, k);
    t' := DeliveryJoins(s, t2, k);
  }

  lemma DeliveryJoins(s: System, t: System, k: nat) returns (t': System)
    requires LeadsTo(s, t) && t.stop == StoppingDelivery(k) && k < |t.delivery| && t.delivery[k].exited
    ensures LeadsTo(s, t') && t' == t.(stop := StoppingDelivery(k + 1))
  {
    t' := t.(stop := StoppingDelivery(k + 1));
    Then(s, t, JoinNext, t');
  }

  /** Worker by worker. */
  lemma {:induction false} LogicStops(s: System, t: System, k: nat) returns (t': System)
    requires LeadsTo(s, t) && t.stop == StoppingLogic(k) && k <= |t.logic|
    ensures LeadsTo(s, t') && t' == t.(logic := t'.logic, stop := StoppingLogic(|t.logic|)) && SamePosts(t.logic, t'.logic)
    decreases |t.logic| - k
  {
    if k == |t.logic| {
      t' := t;
    } else {
      var t1 := LogicWorkerStops(s, t, k);
      t' := LogicStops(s, t1, k + 1);
    }
  }

  lemma {:induction false} DeliveryStops(s: System, t: System, k: nat) returns (t': System)
    requires LeadsTo(s, t) && t.stop == StoppingDelivery(k) && k <= |t.delivery|
    ensures LeadsTo(s, t') && t' == t.(delivery := t'.delivery, stop := StoppingDelivery(|t.delivery|)) && SamePosts(t.delivery, t'.delivery)
    decreases |t.delivery| - k
  {
    if k == |t.delivery| {
      t' := t;
    } else {
      var t1 := DeliveryWorkerStops(s, t, k);
      t' := DeliveryStops(s, t1, k + 1);
    }
  }

  /** The loop counters stay within the two layers. */
  predicate InRange(s: System) {
    match s.stop
    case StoppingLogic(k) => k <= |s.logic|
    case StoppingDelivery(k) => k <= |s.delivery|
    case _ => true
  }

  lemma {:induction false} CountersStayInRange(states: seq<System>, steps: seq<SystemStep>, i: nat)
    requires IsSystemRun(states, steps) && i < |states|
    ensures InRange(states[i])
  {
    if i > 0 {
      CountersStayInRange(states, steps, i - 1);
      assert SystemNext(states[i - 1], steps[i - 1], states[i]);
    }
  }

  lemma DeliveryEnds(s: System, t: System) returns (t': System)
    requires LeadsTo(s, t) && t.stop.StoppingDelivery? && InRange(t)
    ensures LeadsTo(s, t') && t'.stop == Stopped && t'.logic == t.logic && SamePosts(t.delivery, t'.delivery)
  {
    var t1 := DeliveryStops(s, t, t.stop.deliveryDone);
    t' := t1.(stop := Stopped);
    Then(s, t1, EndStop, t');
  }

  lemma LogicEnds(s: System, t: System) returns (t': System)
    requires LeadsTo(s, t) && t.stop.StoppingLogic? && InRange(t)
    ensures LeadsTo(s, t') && t'.stop == Stopped && SamePosts(t.logic, t'.logic) && SamePosts(t.delivery, t'.delivery)
  {
    var t1 := LogicStops(s, t, t.stop.logicDone);
    var t2 := t1.(deliveryStopping := true, stop := StoppingDelivery(0));
    Then(s, t1, EndLogicStop, t2);
    t' := DeliveryEnds(s, t2);
  }

  lemma StopLeads(s: System) returns (t: System)
    requires InRange(s)
    ensures LeadsTo(s, t) && t.stop == Stopped && SamePosts(s.logic, t.logic) && SamePosts(s.delivery, t.delivery)
  {
    Stay(s);
    match s.stop
    case Stopped => t := s;
    case StoppingDelivery(_) => t := DeliveryEnds(s, s);
    case StoppingLogic(_) => t := LogicEnds(s, s);
    case NotStopping =>
      var t1 := s.(ingressStopping := true, stop := StoppingLogic(0));
      Then(s, s, BeginStop, t1);
      t := LogicEnds(s, t1);
  }

  /** Each worker of `b` has run exactly the tasks that it had accepted in `a`. */
  ghost predicate HaveRun(a: seq<Worker>, b: seq<Worker>) {
    |a| == |b| && forall i :: 0 <= i < |a| ==> b[i].finished == a[i].posted
  }

  /** From every state of every run, whatever is queued or running, Stop can come to its end; then the
      workers of both layers have run exactly the tasks they had accepted, in that order. */
  lemma ShutdownCompletes(states: seq<System>, steps: seq<SystemStep>) returns (states': seq<System>, steps': seq<SystemStep>)
    requires IsSystemRun(states, steps)
    ensures Continues(states, steps, states', steps')
    ensures var s, t := states[|states| - 1], states'[|states'| - 1];
            t.stop == Stopped && HaveRun(s.logic, t.logic) && HaveRun(s.delivery, t.delivery)
  {
    states', steps' := ShutdownRuns(states, steps);
    StopDrainsEverything(states', steps', |states'| - 1);
  }

  lemma ShutdownRuns(states: seq<System>, steps: seq<SystemStep>) returns (states': seq<System>, steps': seq<SystemStep>)
    requires IsSystemRun(states, steps)
    ensures Continues(states, steps, states', steps')
    ensures var s, t := states[|states| - 1], states'[|states'| - 1];
            t.stop == Stopped && SamePosts(s.logic, t.logic) && SamePosts(s.delivery, t.delivery)
  {
    var s := states[|states| - 1];
    CountersStayInRange(states, steps, |states| - 1);
    var t := StopLeads(s);
    var p :| IsPath(s, p) && End(s, p) == t;
    states', steps' := PathContinues(states, steps, p);
  }

  /** A task posted to a logic worker of a system that is not stopping is accepted behind the tasks it has,
      and runs after them. */
  lemma PostedTaskRuns(states: seq<System>, steps: seq<SystemStep>, i: nat, task: nat)
    returns (states': seq<System>, steps': seq<SystemStep>)
    requires IsSystemRun(states, steps) && states[|states| - 1].stop == NotStopping && i < |states[|states| - 1].logic|
    ensures Continues(states, steps, states', steps') && steps + [PostLogic(i, task, true, true)] <= steps'
    ensures var s, t := states[|states| - 1], states'[|states'| - 1];
            t.stop == Stopped && |t.logic| == |s.logic| && t.logic[i].finished == s.logic[i].posted + [task]
  {
    var s := states[|states| - 1];
    SystemRunKeepsInv(states, steps, |states| - 1);
    var w := s.logic[i].(queue := s.logic[i].queue + [task], posted := s.logic[i].posted + [task]);
    var s1 := s.(logic := s.logic[i := w]);
    assert SystemNext(s, PostLogic(i, task, true, true), s1);
    RunExtends(states, steps, PostLogic(i, task, true, true), s1);
    states', steps' := ShutdownCompletes(states + [s1], steps + [PostLogic(i, task, true, true)]);
    assert states <= states + [s1] <= states';
  }

  /** So is a delivery that a running logic task posts, also while the logic layer is being stopped. */
  lemma PostedDeliveryRuns(states: seq<System>, steps: seq<SystemStep>, i: nat, j: nat, task: nat)
    returns (states': seq<System>, steps': seq<SystemStep>)
    requires IsSystemRun(states, steps)
    requires var s := states[|states| - 1];
             (s.stop.NotStopping? || s.stop.StoppingLogic?) && i < |s.logic| && s.logic[i].running.Some? && j < |s.delivery|
    ensures Continues(states, steps, states', steps') && steps + [PostDelivery(i, j, task, true)] <= steps'
    ensures var s, t := states[|states| - 1], states'[|states'| - 1];
            t.stop == Stopped && |t.delivery| == |s.delivery| && t.delivery[j].finished == s.delivery[j].posted + [task]
  {
    var s := states[|states| - 1];
    SystemRunKeepsInv(states, steps, |states| - 1);
    var w := s.delivery[j].(queue := s.delivery[j].queue + [task], posted := s.delivery[j].posted + [task]);
    var s1 := s.(delivery := s.delivery[j := w]);
    assert SystemNext(s, PostDelivery(i, j, task, true), s1);
    RunExtends(states, steps, PostDelivery(i, j, task, true), s1);
    states', steps' := ShutdownCompletes(states + [s1], steps + [PostDelivery(i, j, task, true)]);
    assert states <= states + [s1] <= states';
  }
}
