/** Safety and progress of the engine's gates and of the state mutex. */
module EngineLocks {
  import opened Basics
  import opened Targets
  import opened Engine

  /** A gate is held by exactly the task that is recorded as its holder. */
  ghost predicate GatesOk(w: World) {
    && (forall id | id in w.gates ::
          w.gates[id] < |w.tasks| && w.tasks[w.gates[id]].binding == id && HoldsGate(w.tasks[w.gates[id]].pc))
    && (forall t | 0 <= t < |w.tasks| && HoldsGate(w.tasks[t].pc) ::
          w.tasks[t].binding in w.gates && w.gates[w.tasks[t].binding] == t)
  }

  ghost predicate TargetGatesOk(w: World) {
    && (forall id | id in w.targetGates ::
          && w.targetGates[id] < |w.tasks| && HoldsTarget(w.tasks[w.targetGates[id]].pc)
          && w.tasks[w.targetGates[id]].binding in w.config
          && IdentityOf(w.config[w.tasks[w.targetGates[id]].binding].target) == id)
    && (forall t | 0 <= t < |w.tasks| && HoldsTarget(w.tasks[t].pc) ::
          && w.tasks[t].binding in w.config
          && IdentityOf(w.config[w.tasks[t].binding].target) in w.targetGates
          && w.targetGates[IdentityOf(w.config[w.tasks[t].binding].target)] == t)
  }

  ghost predicate MutexOk(w: World) {
    && (w.mutex.Some? ==> w.mutex.value < |w.tasks| && HoldsState(w.tasks[w.mutex.value].pc))
    && (forall t | 0 <= t < |w.tasks| && HoldsState(w.tasks[t].pc) :: w.mutex == Some(t))
  }

  /** Unfinished tasks belong to the running configuration, which is replaced only when there are none. */
  ghost predicate TasksOk(w: World) {
    && (forall t | 0 <= t < |w.tasks| && !w.tasks[t].pc.Done? :: w.tasks[t].binding in w.config)
    && (forall t | 0 <= t < |w.tasks| && w.tasks[t].pc.AwaitValue? ::
          w.tasks[t].binding in w.config && w.tasks[t].pc.seen < |Timeline(w, w.config[w.tasks[t].binding].source)|)
    && (w.save.Invalidated? || w.save.Reloaded? || w.save.Written? ==> AllDone(w))
  }

  ghost predicate Locks(w: World) {
    GatesOk(w) && TargetGatesOk(w) && MutexOk(w) && TasksOk(w)
  }

  /** The moves between program points that respect the guards. */
  ghost predicate Orderly(w: World, t: nat, pc: Pc)
    requires t < |w.tasks| && w.tasks[t].binding in w.config
  {
    var b, before := BindingOf(w, t), w.tasks[t].pc;
    && Remaining(pc) < Remaining(before)
    && (before.WaitGate? && HoldsGate(pc) ==> w.tasks[t].binding !in w.gates)
    && (!HoldsTarget(before) && HoldsTarget(pc) ==> IdentityOf(b.target) !in w.targetGates)
    && (!HoldsState(before) && HoldsState(pc) ==> w.mutex == None)
    && (pc.AwaitValue? ==> pc.seen < |Timeline(w, b.source)|)
  }

  lemma NextPcOrderly(w: World, t: nat, ok: bool, i: nat)
    requires Ready(w, t, ok, i)
    ensures Orderly(w, t, NextPc(w, t, ok, i))
  {
  }

  lemma GatesKept(w: World, t: nat, pc: Pc)
    requires GatesOk(w) && t < |w.tasks| && w.tasks[t].binding in w.config && Orderly(w, t, pc)
    ensures GatesOk(Goto(w, t, pc))
  {
    var v := Goto(w, t, pc);
    assert forall u | 0 <= u < |w.tasks| && u != t :: v.tasks[u] == w.tasks[u];
  }

  lemma TargetGatesKept(w: World, t: nat, pc: Pc)
    requires TargetGatesOk(w) && t < |w.tasks| && w.tasks[t].binding in w.config && Orderly(w, t, pc)
    ensures TargetGatesOk(Goto(w, t, pc))
  {
    var v := Goto(w, t, pc);
    assert forall u | 0 <= u < |w.tasks| && u != t :: v.tasks[u] == w.tasks[u];
  }

  lemma MutexKept(w: World, t: nat, pc: Pc)
    requires MutexOk(w) && t < |w.tasks| && w.tasks[t].binding in w.config && Orderly(w, t, pc)
    ensures MutexOk(Goto(w, t, pc))
  {
    var v := Goto(w, t, pc);
    assert forall u | 0 <= u < |w.tasks| && u != t :: v.tasks[u] == w.tasks[u];
  }

  lemma TasksKept(w: World, t: nat, pc: Pc)
    requires TasksOk(w) && t < |w.tasks| && w.tasks[t].binding in w.config && Orderly(w, t, pc)
    ensures TasksOk(Goto(w, t, pc))
  {
    var v := Goto(w, t, pc);
    assert forall u | 0 <= u < |w.tasks| && u != t :: v.tasks[u] == w.tasks[u];
  }

  lemma GotoKeepsLocks(w: World, t: nat, pc: Pc)
    requires Locks(w) && t < |w.tasks| && w.tasks[t].binding in w.config && Orderly(w, t, pc)
    ensures Locks(Goto(w, t, pc))
  {
    GatesKept(w, t, pc);
    TargetGatesKept(w, t, pc);
    MutexKept(w, t, pc);
    TasksKept(w, t, pc);
  }

  /** The guards do not depend on what a step writes. */
  lemma LocksFrame(w: World, v: World)
    requires Locks(w)
    requires v.config == w.config && v.tasks == w.tasks && v.gates == w.gates && v.targetGates == w.targetGates
    requires v.mutex == w.mutex && v.save == w.save && v.timeline == w.timeline
    ensures Locks(v)
  {
  }

  lemma AdvanceGoes(w: World, t: nat, ok: bool, i: nat) returns (pc: Pc)
    requires Ready(w, t, ok, i)
    ensures Orderly(w, t, pc)
    ensures var v, g := Advance(w, t, ok, i), Goto(w, t, pc);
            && v.config == g.config && v.tasks == g.tasks && v.gates == g.gates && v.targetGates == g.targetGates
            && v.mutex == g.mutex && v.save == g.save && v.timeline == g.timeline
  {
    pc := NextPc(w, t, ok, i);
    NextPcOrderly(w, t, ok, i);
  }

  lemma TaskStepKeepsLocks(w: World, t: nat, ok: bool, i: nat)
    requires Locks(w) && Ready(w, t, ok, i)
    ensures Locks(Advance(w, t, ok, i))
  {
    var pc := AdvanceGoes(w, t, ok, i);
    GotoKeepsLocks(w, t, pc);
    LocksFrame(Goto(w, t, pc), Advance(w, t, ok, i));
  }

  lemma StartKeepsLocks(w: World, id: string, kind: Kind)
    requires Locks(w) && Enabled(w, Start(id, kind))
    ensures Locks(Step(w, Start(id, kind)))
  {
    var v := Step(w, Start(id, kind));
    assert forall u | 0 <= u < |w.tasks| :: v.tasks[u] == w.tasks[u];
  }

  lemma PublishKeepsLocks(w: World, source: string, release: Release)
    requires Locks(w)
    ensures Locks(Step(w, Publish(source, release)))
  {
    var v := Step(w, Publish(source, release));
    assert forall other :: |Timeline(w, other)| <= |Timeline(v, other)|;
  }

  /** Once every task has answered, nothing is held, so nothing depends on the configuration. */
  lemma NothingHeld(w: World)
    requires Locks(w) && AllDone(w)
    ensures w.gates == map[] && w.targetGates == map[] && w.mutex == None
  {
  }

  lemma IdleLocks(w: World)
    requires AllDone(w) && w.gates == map[] && w.targetGates == map[] && w.mutex == None
    ensures Locks(w)
  {
  }

  lemma SaveKeepsLocks(w: World, ok: bool)
    requires Locks(w) && Enabled(w, SaveStep(ok))
    ensures Locks(Step(w, SaveStep(ok)))
  {
    NothingHeld(w);
    IdleLocks(Step(w, SaveStep(ok)));
  }

  lemma LocksKept(w: World, e: Event)
    requires Locks(w) && Enabled(w, e)
    ensures Locks(Step(w, e))
  {
    match e
    case TaskStep(t, ok, i) => TaskStepKeepsLocks(w, t, ok, i);
    case Publish(source, release) => PublishKeepsLocks(w, source, release);
    case DeleteFile(_) => LocksFrame(w, Step(w, e));
    case Start(id, kind) => StartKeepsLocks(w, id, kind);
    case Cancel(t) => GotoKeepsLocks(w, t, Done(Failed(StateError), None));
    case Crash =>
    case SaveBegin(_) =>
    case SaveStep(ok) => SaveKeepsLocks(w, ok);
  }

  lemma {:induction false} RunKeepsLocks(w: World, events: seq<Event>)
    requires Locks(w) && Run(w, events)
    ensures Locks(After(w, events))
    decreases |events|
  {
    if events != [] {
      LocksKept(w, events[0]);
      RunKeepsLocks(Step(w, events[0]), events[1..]);
    }
  }

  // ---- safety ----

  /** In every run no two calls for one binding overlap past its gate, and no two applies to one identity overlap. */
  lemma NoOverlap(w: World, events: seq<Event>, t: nat, u: nat)
    requires Init(w) && Run(w, events)
    requires t < |After(w, events).tasks| && u < |After(w, events).tasks|
    ensures var z := After(w, events);
            && (HoldsGate(z.tasks[t].pc) && HoldsGate(z.tasks[u].pc) && z.tasks[t].binding == z.tasks[u].binding ==> t == u)
            && (HoldsTarget(z.tasks[t].pc) && HoldsTarget(z.tasks[u].pc) ==>
                  z.tasks[t].binding in z.config && z.tasks[u].binding in z.config &&
                  (IdentityOf(BindingOf(z, t).target) == IdentityOf(BindingOf(z, u).target) ==> t == u))
            && (HoldsState(z.tasks[t].pc) && HoldsState(z.tasks[u].pc) ==> t == u)
  {
    RunKeepsLocks(w, events);
  }

  // ---- progress ----

  /** Some answer from outside lets this task move now. */
  ghost predicate CanMove(w: World, t: nat) {
    exists ok: bool, i: nat :: Ready(w, t, ok, i)
  }

  /** No deadlock: while a task is unfinished, some task can move, whoever waits for whom. */
  lemma SomeTaskCanMove(w: World, t: nat) returns (u: nat)
    requires Locks(w) && t < |w.tasks| && !w.tasks[t].pc.Done?
    ensures u < |w.tasks| && CanMove(w, u)
  {
    u := t;
    // Follow the chain of holders: binding gate, then target gate, then state mutex.
    if w.tasks[u].pc.WaitGate? && w.tasks[u].binding in w.gates {
      u := w.gates[w.tasks[u].binding];
    }
    if w.tasks[u].pc.WaitTarget? && IdentityOf(w.config[w.tasks[u].binding].target) in w.targetGates {
      u := w.targetGates[IdentityOf(w.config[w.tasks[u].binding].target)];
    }
    if w.mutex.Some? && (w.tasks[u].pc.Entered? || w.tasks[u].pc.AwaitVersion? || w.tasks[u].pc.NeedState?) {
      u := w.mutex.value;
    }
    assert Ready(w, u, false, 0);
  }

  lemma NoDeadlock(w: World, events: seq<Event>, t: nat)
    requires Init(w) && Run(w, events)
    requires t < |After(w, events).tasks| && !After(w, events).tasks[t].pc.Done?
    ensures exists u :: 0 <= u < |After(w, events).tasks| && CanMove(After(w, events), u)
  {
    RunKeepsLocks(w, events);
    var u := SomeTaskCanMove(After(w, events), t);
  }

  /** How many more steps a task can take at most. */
  function Remaining(pc: Pc): nat {
    match pc
    case WaitGate => 13
    case Entered => 12
    case AwaitVersion(_, _) => 11
    case AwaitValue(_) => 10
    case WaitTarget(_, _) => 9
    case Applying(_, _, _) => 8
    case NeedState(write) => if write.RecordApplied? then 7 else 4
    case HasState(write, _) => if write.RecordApplied? then 6 else 3
    case Saved(write, _) => if write.RecordApplied? then 5 else 2
    case Logging(_, _) => 1
    case Done(_, _) => 0
  }

  function TotalRemaining(tasks: seq<Task>): nat {
    if tasks == [] then 0 else TotalRemaining(tasks[..|tasks| - 1]) + Remaining(tasks[|tasks| - 1].pc)
  }

  lemma {:induction false} UpdateRemaining(tasks: seq<Task>, t: nat, task: Task)
    requires t < |tasks|
    ensures TotalRemaining(tasks[t := task]) + Remaining(tasks[t].pc) == TotalRemaining(tasks) + Remaining(task.pc)
  {
    var last := |tasks| - 1;
    if t < last {
      assert tasks[t := task][..last] == tasks[..last][t := task];
      UpdateRemaining(tasks[..last], t, task);
    } else {
      assert tasks[t := task][..last] == tasks[..last];
    }
  }

  /** Every task step uses up some of the total, so with no new tasks all of them finish within that many steps. */
  lemma TaskStepProgress(w: World, t: nat, ok: bool, i: nat)
    requires Ready(w, t, ok, i)
    ensures TotalRemaining(Advance(w, t, ok, i).tasks) < TotalRemaining(w.tasks)
  {
    NextPcOrderly(w, t, ok, i);
    UpdateRemaining(w.tasks, t, w.tasks[t].(pc := NextPc(w, t, ok, i)));
  }

  ghost predicate TaskRun(w: World, events: seq<Event>) {
    Run(w, events) && forall e | e in events :: e.TaskStep?
  }

  lemma {:induction false} TaskRunsAreBounded(w: World, events: seq<Event>)
    requires TaskRun(w, events)
    ensures |events| + TotalRemaining(After(w, events).tasks) <= TotalRemaining(w.tasks)
    decreases |events|
  {
    if events != [] {
      assert events[0] in events;
      TaskStepProgress(w, events[0].t, events[0].ok, events[0].i);
      TaskRunsAreBounded(Step(w, events[0]), events[1..]);
    }
  }

  /** Live: a run of task steps that goes on while anything can move stops after a bounded time with every task answered. */
  lemma MaximalRunsFinish(w: World, events: seq<Event>)
    requires Locks(w) && TaskRun(w, events)
    requires forall t | 0 <= t < |After(w, events).tasks| :: !CanMove(After(w, events), t)
    ensures AllDone(After(w, events)) && |events| <= TotalRemaining(w.tasks)
  {
    RunKeepsLocks(w, events);
    TaskRunsAreBounded(w, events);
    var z := After(w, events);
    forall t | 0 <= t < |z.tasks| ensures z.tasks[t].pc.Done? {
      if !z.tasks[t].pc.Done? {
        var u := SomeTaskCanMove(z, t);
        assert false;
      }
    }
  }
}
