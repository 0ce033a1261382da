/** The state in memory, the state file and the configuration file, across faults and crashes. */
module EngineState {
  import opened Basics
  import opened Targets
  import opened Engine
  import opened EngineLocks

  /** The update a task computed under the mutex is still the right one: nobody else changed the state since. */
  ghost predicate UpdateOk(w: World, t: nat)
    requires t < |w.tasks|
  {
    var task := w.tasks[t];
    (task.pc.HasState? || task.pc.Saved?) ==>
      && task.binding in w.config
      && NextState(w.mem, task.binding, Timeline(w, w.config[task.binding].source), task.pc.write) == Some(task.pc.next)
      && w.disk == if task.pc.Saved? then task.pc.next else w.mem
  }

  ghost predicate StateOk(w: World) {
    && (w.mutex == None ==> w.mem == w.disk)
    && (forall t | 0 <= t < |w.tasks| :: UpdateOk(w, t))
  }

  /** Each id recorded as applied on disk was applied under the definition that the configuration file now gives it. */
  ghost predicate AppliedAsDefined(w: World) {
    forall id | id in w.disk.applied ::
      id in w.under && id in w.configOnDisk && w.under[id] == w.configOnDisk[id]
  }

  ghost predicate SaveOk(w: World) {
    && (!w.save.Written? ==> w.config == w.configOnDisk)
    && (w.save.Written? ==> w.configOnDisk == w.save.config)
    && (w.save.Invalidated? || w.save.Reloaded? || w.save.Written? ==>
          forall id | id in w.disk.applied :: !Changed(w.config, w.save.config, id))
  }

  ghost predicate Inv(w: World) {
    Locks(w) && StateOk(w) && AppliedAsDefined(w) && SaveOk(w)
  }

  /** How the state moves with a task that goes to `pc`. */
  ghost predicate StateMove(w: World, v: World, t: nat, pc: Pc)
    requires t < |w.tasks|
  {
    var task := w.tasks[t];
    && v.tasks == w.tasks[t := task.(pc := pc)]
    && v.config == w.config && v.configOnDisk == w.configOnDisk && v.timeline == w.timeline && v.save == w.save
    && v.mutex == (if HoldsState(pc) then Some(t) else if HoldsState(task.pc) then None else w.mutex)
    && v.mem == (if task.pc.Saved? then task.pc.next else w.mem)
    && v.disk == (if task.pc.HasState? && pc.Saved? then task.pc.next else w.disk)
    && v.under == (if task.pc.HasState? && pc.Saved? && task.pc.write.RecordApplied? && task.binding in w.config
                   then w.under[task.binding := w.config[task.binding]] else w.under)
  }

  /** Only these moves reach the two points at which the mutex is held. */
  ghost predicate StateEntry(w: World, t: nat, pc: Pc)
    requires t < |w.tasks| && w.tasks[t].binding in w.config
  {
    var task := w.tasks[t];
    && (pc.HasState? ==>
          && task.pc.NeedState? && w.mutex == None && pc.write == task.pc.write
          && NextState(w.mem, task.binding, Timeline(w, w.config[task.binding].source), pc.write) == Some(pc.next))
    && (pc.Saved? ==> task.pc.HasState? && pc.write == task.pc.write && pc.next == task.pc.next)
  }

  /** Most steps leave the state alone. */
  lemma GotoStateMove(w: World, v: World, t: nat, pc: Pc)
    requires t < |w.tasks| && w.tasks[t].binding in w.config && !w.tasks[t].pc.Saved? && !(w.tasks[t].pc.HasState? && pc.Saved?)
    requires v == Goto(w, t, pc).(targets := v.targets, reached := v.reached)
    ensures StateMove(w, v, t, pc)
  {
  }

  lemma WriteStateMove(w: World, t: nat, ok: bool, i: nat)
    requires Ready(w, t, ok, i) && w.tasks[t].pc.HasState?
    ensures NextPc(w, t, ok, i).Saved? <==> ok
    ensures StateMove(w, Advance(w, t, ok, i), t, NextPc(w, t, ok, i))
  {
  }

  lemma PublishStateMove(w: World, t: nat, ok: bool, i: nat)
    requires Ready(w, t, ok, i) && w.tasks[t].pc.Saved?
    ensures StateMove(w, Advance(w, t, ok, i), t, NextPc(w, t, ok, i))
  {
  }

  lemma AdvanceStateMove(w: World, t: nat, ok: bool, i: nat)
    requires Ready(w, t, ok, i)
    ensures StateMove(w, Advance(w, t, ok, i), t, NextPc(w, t, ok, i))
  {
    if w.tasks[t].pc.HasState? {
      WriteStateMove(w, t, ok, i);
    } else if w.tasks[t].pc.Saved? {
      PublishStateMove(w, t, ok, i);
    } else {
      GotoStateMove(w, Advance(w, t, ok, i), t, NextPc(w, t, ok, i));
    }
  }

  lemma NextPcStateEntry(w: World, t: nat, ok: bool, i: nat)
    requires Ready(w, t, ok, i)
    ensures StateEntry(w, t, NextPc(w, t, ok, i))
  {
  }

  lemma MoveKeepsState(w: World, v: World, t: nat, pc: Pc)
    requires MutexOk(w) && StateOk(w) && t < |w.tasks| && w.tasks[t].binding in w.config
    requires StateMove(w, v, t, pc) && StateEntry(w, t, pc)
    ensures StateOk(v)
  {
    assert UpdateOk(w, t);
    forall u | 0 <= u < |v.tasks| ensures UpdateOk(v, u) {
      if u != t {
        assert v.tasks[u] == w.tasks[u] && UpdateOk(w, u);
        assert HoldsState(w.tasks[u].pc) ==> w.mutex == Some(u);
      }
    }
  }

  lemma MoveKeepsApplied(w: World, v: World, t: nat, pc: Pc)
    requires Inv(w) && t < |w.tasks| && w.tasks[t].binding in w.config && !w.tasks[t].pc.Done?
    requires StateMove(w, v, t, pc) && StateEntry(w, t, pc)
    ensures AppliedAsDefined(v) && SaveOk(v)
  {
    assert UpdateOk(w, t);
    assert w.config == w.configOnDisk && (w.save.Quiet? || w.save.Draining?);
    if pc.Saved? {
      assert w.disk == w.mem;
      var write := pc.write;
      assert v.disk.applied.Keys <= w.disk.applied.Keys + if write.RecordApplied? then {w.tasks[t].binding} else {};
    }
  }

  lemma TaskStepKeepsInv(w: World, t: nat, ok: bool, i: nat)
    requires Inv(w) && Ready(w, t, ok, i)
    ensures Inv(Advance(w, t, ok, i))
  {
    TaskStepKeepsLocks(w, t, ok, i);
    AdvanceStateMove(w, t, ok, i);
    NextPcStateEntry(w, t, ok, i);
    MoveKeepsState(w, Advance(w, t, ok, i), t, NextPc(w, t, ok, i));
    MoveKeepsApplied(w, Advance(w, t, ok, i), t, NextPc(w, t, ok, i));
  }

  lemma StartKeepsState(w: World, id: string, kind: Kind)
    requires Inv(w) && Enabled(w, Start(id, kind))
    ensures StateOk(Step(w, Start(id, kind)))
  {
    var v := Step(w, Start(id, kind));
    forall u | 0 <= u < |v.tasks| ensures UpdateOk(v, u) {
      assert u < |w.tasks| ==> UpdateOk(w, u);
    }
  }

  lemma PublishKeepsState(w: World, source: string, release: Release)
    requires Inv(w)
    ensures StateOk(Step(w, Publish(source, release)))
  {
    var v := Step(w, Publish(source, release));
    assert forall other :: Timeline(w, other) <= Timeline(v, other);
    forall u | 0 <= u < |v.tasks| ensures UpdateOk(v, u) {
      assert UpdateOk(w, u);
    }
  }

  lemma CancelKeepsState(w: World, t: nat)
    requires Inv(w) && Enabled(w, Cancel(t))
    ensures StateOk(Step(w, Cancel(t)))
  {
    var v := Step(w, Cancel(t));
    forall u | 0 <= u < |v.tasks| ensures UpdateOk(v, u) {
      assert UpdateOk(w, u);
    }
  }

  /** An idle engine: what the invariant then says does not involve tasks. */
  lemma IdleState(w: World)
    requires AllDone(w) && w.mem == w.disk
    ensures StateOk(w)
  {
  }

  lemma InvalidationRemovesChanged(s: State, before: Config, after: Config)
    ensures var n := Invalidate(s, before, after);
            && (forall id | id in n.applied :: !Changed(before, after, id) && id in s.applied && n.applied[id] == s.applied[id])
            && (forall id | id in s.applied && !Changed(before, after, id) :: id in n.applied)
  {
  }

  lemma DrainKeepsApplied(w: World)
    requires AppliedAsDefined(w) && SaveOk(w) && w.mem == w.disk && Enabled(w, SaveStep(true)) && w.save.Draining?
    ensures AppliedAsDefined(SaveConfig(w, true)) && SaveOk(SaveConfig(w, true))
  {
    InvalidationRemovesChanged(w.mem, w.config, w.save.config);
  }

  lemma WriteConfigKeepsApplied(w: World)
    requires AppliedAsDefined(w) && SaveOk(w) && Enabled(w, SaveStep(true)) && w.save.Reloaded?
    ensures AppliedAsDefined(SaveConfig(w, true)) && SaveOk(SaveConfig(w, true))
  {
    var v := SaveConfig(w, true);
    forall id | id in v.disk.applied ensures id in v.configOnDisk && v.under[id] == v.configOnDisk[id] {
      assert !Changed(w.config, w.save.config, id);
    }
  }

  lemma SaveKeepsApplied(w: World, ok: bool)
    requires AppliedAsDefined(w) && SaveOk(w) && w.mem == w.disk && Enabled(w, SaveStep(ok))
    ensures AppliedAsDefined(SaveConfig(w, ok)) && SaveOk(SaveConfig(w, ok))
  {
    if ok && w.save.Draining? {
      DrainKeepsApplied(w);
    } else if ok && w.save.Reloaded? {
      WriteConfigKeepsApplied(w);
    } else {
      var v := SaveConfig(w, ok);
      assert v.disk == w.disk && v.under == w.under && v.configOnDisk == w.configOnDisk;
    }
  }

  lemma SaveKeepsMemory(w: World, ok: bool)
    requires w.mem == w.disk && Enabled(w, SaveStep(ok))
    ensures SaveConfig(w, ok).mem == SaveConfig(w, ok).disk && SaveConfig(w, ok).tasks == w.tasks
  {
  }

  /** `save_config` at any of its points, with any of its writes failing. */
  lemma SaveKeepsInv(w: World, ok: bool)
    requires Inv(w) && Enabled(w, SaveStep(ok))
    ensures Inv(Step(w, SaveStep(ok)))
  {
    SaveKeepsLocks(w, ok);
    NothingHeld(w);
    SaveKeepsMemory(w, ok);
    IdleState(SaveConfig(w, ok));
    SaveKeepsApplied(w, ok);
  }

  lemma InvKept(w: World, e: Event)
    requires Inv(w) && Enabled(w, e)
    ensures Inv(Step(w, e))
  {
    match e
    case TaskStep(t, ok, i) => TaskStepKeepsInv(w, t, ok, i);
    case SaveStep(ok) => SaveKeepsInv(w, ok);
    case _ =>
      LocksKept(w, e);
      OtherEventKeepsState(w, e);
      OtherEventFrame(w, e);
  }

  lemma OtherEventKeepsState(w: World, e: Event)
    requires Inv(w) && Enabled(w, e) && !e.TaskStep? && !e.SaveStep?
    ensures StateOk(Step(w, e))
  {
    match e
    case Publish(source, release) => PublishKeepsState(w, source, release);
    case DeleteFile(_) => SameTasksKeepState(w, Step(w, e));
    case Start(id, kind) => StartKeepsState(w, id, kind);
    case Cancel(t) => CancelKeepsState(w, t);
    case Crash =>
    case SaveBegin(_) => SameTasksKeepState(w, Step(w, e));
  }

  lemma SameTasksKeepState(w: World, v: World)
    requires StateOk(w) && v.tasks == w.tasks && v.mem == w.mem && v.disk == w.disk && v.mutex == w.mutex
    requires v.config == w.config && v.timeline == w.timeline
    ensures StateOk(v)
  {
    forall u | 0 <= u < |v.tasks| ensures UpdateOk(v, u) {
      assert UpdateOk(w, u);
    }
  }

  /** What is recorded as applied, and the configurations, do not depend on these events. */
  lemma OtherEventFrame(w: World, e: Event)
    requires AppliedAsDefined(w) && SaveOk(w) && Enabled(w, e) && !e.TaskStep? && !e.SaveStep?
    ensures AppliedAsDefined(Step(w, e)) && SaveOk(Step(w, e))
  {
  }

  lemma {:induction false} RunKeepsInv(w: World, events: seq<Event>)
    requires Inv(w) && Run(w, events)
    ensures Inv(After(w, events))
    decreases |events|
  {
    if events != [] {
      InvKept(w, events[0]);
      RunKeepsInv(Step(w, events[0]), events[1..]);
    }
  }

  /**
   * At every point of any run of syncs, saves and crashes, what the state file records as applied was applied under
   * the definitions in the configuration file, and memory equals the state file whenever nobody holds the mutex.
   */
  lemma ConfigAndStateAgree(w: World, events: seq<Event>)
    requires Init(w) && Run(w, events)
    ensures var z := After(w, events);
            && AppliedAsDefined(z)
            && (z.mutex == None ==> z.mem == z.disk)
  {
    RunKeepsInv(w, events);
  }
}
