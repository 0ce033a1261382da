/** Disabled bindings, pending restarts, and the runs in which the engine's answers are weaker than one might hope. */
module EngineLifecycle {
  import opened Basics
  import opened Targets
  import opened Engine
  import opened EngineLocks
  import EngineState
  import A = EngineAgreement

  // ---- a disabled binding is left alone ----

  /** Between these points a sync asks its source or touches its target. */
  predicate Working(pc: Pc) {
    pc.AwaitVersion? || pc.AwaitValue? || pc.WaitTarget? || HoldsTarget(pc)
  }

  ghost predicate DisabledOk(w: World) {
    forall t | 0 <= t < |w.tasks| && Working(w.tasks[t].pc) :: w.tasks[t].binding !in w.mem.disabled
  }

  lemma MoveKeepsDisabledOk(w: World, v: World, t: nat, ok: bool, i: nat)
    requires Locks(w) && DisabledOk(w) && EngineState.StateOk(w) && Ready(w, t, ok, i)
    requires EngineState.StateMove(w, v, t, NextPc(w, t, ok, i))
    ensures DisabledOk(v)
  {
    var pc := w.tasks[t].pc;
    assert EngineState.UpdateOk(w, t);
    assert pc.Saved? ==> pc.next.disabled <= w.mem.disabled + {w.tasks[t].binding};
    forall u | 0 <= u < |v.tasks| && Working(v.tasks[u].pc) ensures v.tasks[u].binding !in v.mem.disabled {
      if u == t {
        StartsWorkOnlyIfEnabled(w, t, ok, i);
        assert !pc.Saved?;
      } else {
        assert v.tasks[u] == w.tasks[u] && Working(w.tasks[u].pc);
        assert HoldsGate(w.tasks[u].pc);
        assert pc.Saved? ==> w.tasks[u].binding != w.tasks[t].binding;
      }
    }
  }

  lemma StartsWorkOnlyIfEnabled(w: World, t: nat, ok: bool, i: nat)
    requires Ready(w, t, ok, i) && Working(NextPc(w, t, ok, i))
    ensures Working(w.tasks[t].pc) || (w.tasks[t].pc.Entered? && w.tasks[t].binding !in w.mem.disabled)
    ensures !w.tasks[t].pc.Saved?
  {
  }

  ghost predicate Inv(w: World) { EngineState.Inv(w) && DisabledOk(w) && RestartOk(w) }

  /**
   * In every run, once a binding is recorded as disabled, a sync of it never works on source or target: it answers
   * `Disabled` as soon as it has the gate.
   */
  lemma DisabledIsLeftAlone(w: World, events: seq<Event>, t: nat, ok: bool, i: nat)
    requires Init(w) && Run(w, events) && Ready(After(w, events), t, ok, i)
    requires After(w, events).tasks[t].kind.Sync? && After(w, events).tasks[t].binding in After(w, events).mem.disabled
    ensures var z := After(w, events); var v := Advance(z, t, ok, i);
            && !Working(z.tasks[t].pc) && !Working(v.tasks[t].pc) && v.targets == z.targets
            && (z.tasks[t].pc.Entered? ==> v.tasks[t].pc == Done(Disabled, None))
  {
    RunKeepsInv(w, events);
    LeftAlone(After(w, events), t, ok, i);
  }

  lemma LeftAlone(z: World, t: nat, ok: bool, i: nat)
    requires Inv(z) && Ready(z, t, ok, i) && z.tasks[t].kind.Sync? && z.tasks[t].binding in z.mem.disabled
    ensures var v := Advance(z, t, ok, i);
            && !Working(z.tasks[t].pc) && !Working(v.tasks[t].pc) && v.targets == z.targets
            && (z.tasks[t].pc.Entered? ==> v.tasks[t].pc == Done(Disabled, None))
  {
    EngineState.AdvanceStateMove(z, t, ok, i);
    A.AdvanceQuiet(z, t, ok, i);
    if Working(NextPc(z, t, ok, i)) {
      StartsWorkOnlyIfEnabled(z, t, ok, i);
    }
  }

  /** The save writes a state without this id, because its definition is about to be replaced. */
  predicate Forgets(w: World, e: Event, id: string) {
    e == SaveStep(true) && w.save.Draining? && Changed(w.config, w.save.config, id)
  }

  /** A state update of this binding reaches the state file. */
  predicate Records(w: World, e: Event, id: string) {
    e.TaskStep? && e.ok && e.t < |w.tasks| && w.tasks[e.t].binding == id && w.tasks[e.t].pc.HasState?
  }

  predicate Reenables(w: World, e: Event, id: string) {
    (Records(w, e, id) && w.tasks[e.t].pc.write.RecordEnable?) || Forgets(w, e, id)
  }

  /** Recorded as disabled, in memory and on disk. */
  predicate Silenced(w: World, id: string) { id in w.mem.disabled && id in w.disk.disabled }

  /** A disabled binding stays disabled exactly until an enabling is written or its definition is replaced. */
  lemma DisabledPersists(w: World, e: Event, id: string)
    requires Inv(w) && Enabled(w, e) && Silenced(w, id)
    ensures Silenced(Step(w, e), id) <==> !Reenables(w, e, id)
  {
    match e
    case TaskStep(t, ok, i) =>
      EngineState.AdvanceStateMove(w, t, ok, i);
      MoveAndSilence(w, Advance(w, t, ok, i), t, ok, i, id);
    case SaveStep(ok) => SaveAndSilence(w, ok, id);
    case _ => OtherEventAndSilence(w, e, id);
  }

  lemma MoveAndSilence(w: World, v: World, t: nat, ok: bool, i: nat, id: string)
    requires Inv(w) && Ready(w, t, ok, i) && Silenced(w, id) && EngineState.StateMove(w, v, t, NextPc(w, t, ok, i))
    ensures Silenced(v, id) <==> !Reenables(w, TaskStep(t, ok, i), id)
  {
    assert EngineState.UpdateOk(w, t);
    if w.tasks[t].pc.HasState? {
      EngineState.WriteStateMove(w, t, ok, i);
    }
  }

  lemma SaveAndSilence(w: World, ok: bool, id: string)
    requires Enabled(w, SaveStep(ok)) && Silenced(w, id)
    ensures Silenced(SaveConfig(w, ok), id) <==> !Reenables(w, SaveStep(ok), id)
  {
  }

  lemma OtherEventAndSilence(w: World, e: Event, id: string)
    requires Enabled(w, e) && Silenced(w, id) && !e.TaskStep? && !e.SaveStep?
    ensures Silenced(Step(w, e), id)
  {
  }

  ghost predicate NeverReenabled(w: World, events: seq<Event>, id: string)
    requires Run(w, events)
    decreases |events|
  {
    events != [] ==> !Reenables(w, events[0], id) && NeverReenabled(Step(w, events[0]), events[1..], id)
  }

  lemma {:induction false} SilencedRun(w: World, events: seq<Event>, id: string)
    requires Inv(w) && Run(w, events) && Silenced(w, id) && NeverReenabled(w, events, id)
    ensures Inv(After(w, events)) && Silenced(After(w, events), id)
    decreases |events|
  {
    if events != [] {
      StepKeepsInv(w, events[0]);
      DisabledPersists(w, events[0], id);
      SilencedRun(Step(w, events[0]), events[1..], id);
    }
  }

  /**
   * From the moment a binding is recorded as disabled, along every run in which it is neither enabled nor redefined,
   * it stays recorded as disabled, and no sync of it asks the source or writes the target: each answers `Disabled`
   * when it gets the gate.
   */
  lemma DisabledStaysAlone(w: World, before: seq<Event>, events: seq<Event>, id: string, t: nat, ok: bool, i: nat)
    requires Init(w) && Run(w, before) && Silenced(After(w, before), id)
    requires Run(After(w, before), events) && NeverReenabled(After(w, before), events, id)
    requires var z := After(After(w, before), events);
             Ready(z, t, ok, i) && z.tasks[t].kind.Sync? && z.tasks[t].binding == id
    ensures var z := After(After(w, before), events); var v := Advance(z, t, ok, i);
            && Silenced(z, id) && !Working(z.tasks[t].pc) && !Working(v.tasks[t].pc) && v.targets == z.targets
            && (z.tasks[t].pc.Entered? ==> v.tasks[t].pc == Done(Disabled, None))
  {
    RunKeepsInv(w, before);
    SilencedRun(After(w, before), events, id);
    LeftAlone(After(After(w, before), events), t, ok, i);
  }

  // ---- a due restart keeps being reported ----

  predicate Updating(pc: Pc) { pc.NeedState? || pc.HasState? || pc.Saved? }

  /** Syncs record outcomes, other calls do not; while a restart is due, no sync is about to record that nothing happened. */
  ghost predicate RestartTaskOk(w: World, t: nat)
    requires t < |w.tasks|
  {
    var task := w.tasks[t];
    && (Working(task.pc) ==> task.kind.Sync?)
    && (Updating(task.pc) ==> (task.kind.Sync? <==> task.pc.write.RecordStatus? || task.pc.write.RecordApplied?))
    && (task.binding in w.config && w.config[task.binding].target.DockerInput? ==>
          && (Updating(task.pc) && task.pc.write.RecordStatus? ==>
                task.pc.write.outcome != Applied && (Due(w.mem, task.binding) ==> task.pc.write.outcome != Unchanged))
          && (task.pc.Logging? && task.kind.Sync? ==>
                task.binding in w.mem.status && w.mem.status[task.binding] == task.pc.outcome))
  }

  predicate Due(s: State, id: string) { id in s.status && s.status[id] == RestartRequired }

  ghost predicate RestartOk(w: World) {
    forall t | 0 <= t < |w.tasks| :: RestartTaskOk(w, t)
  }

  lemma NextPcRestartOk(w: World, v: World, t: nat, ok: bool, i: nat)
    requires Ready(w, t, ok, i) && RestartTaskOk(w, t) && EngineState.UpdateOk(w, t)
    requires EngineState.StateMove(w, v, t, NextPc(w, t, ok, i))
    ensures RestartTaskOk(v, t)
  {
    var pc := w.tasks[t].pc;
    if pc.AwaitVersion? && ok {
      assert v.mem == w.mem;
    } else if pc.Saved? {
      assert v.mem == pc.next;
    } else {
      assert v.mem == w.mem;
    }
  }

  /** An update changes the status of the updating task's own binding only. */
  lemma OwnStatusOnly(w: World, t: nat, other: string)
    requires t < |w.tasks| && EngineState.UpdateOk(w, t) && (w.tasks[t].pc.HasState? || w.tasks[t].pc.Saved?)
    requires other != w.tasks[t].binding
    ensures other in w.tasks[t].pc.next.status <==> other in w.mem.status
    ensures other in w.mem.status ==> w.tasks[t].pc.next.status[other] == w.mem.status[other]
  {
  }

  lemma MoveKeepsRestartOk(w: World, v: World, t: nat, ok: bool, i: nat)
    requires Locks(w) && RestartOk(w) && EngineState.StateOk(w) && Ready(w, t, ok, i)
    requires EngineState.StateMove(w, v, t, NextPc(w, t, ok, i))
    ensures RestartOk(v)
  {
    assert RestartTaskOk(w, t) && EngineState.UpdateOk(w, t);
    NextPcRestartOk(w, v, t, ok, i);
    forall u | 0 <= u < |v.tasks| ensures RestartTaskOk(v, u) {
      if u != t {
        assert v.tasks[u] == w.tasks[u] && RestartTaskOk(w, u);
        if w.tasks[t].pc.Saved? && HoldsGate(w.tasks[u].pc) {
          assert w.tasks[u].binding != w.tasks[t].binding;
          OwnStatusOnly(w, t, w.tasks[u].binding);
        }
      }
    }
  }

  lemma StepKeepsInv(w: World, e: Event)
    requires Inv(w) && Enabled(w, e)
    ensures Inv(Step(w, e))
  {
    EngineState.InvKept(w, e);
    match e
    case TaskStep(t, ok, i) =>
      EngineState.AdvanceStateMove(w, t, ok, i);
      MoveKeepsDisabledOk(w, Step(w, e), t, ok, i);
      MoveKeepsRestartOk(w, Step(w, e), t, ok, i);
    case Publish(_, _) => IdleKeeps(w, Step(w, e));
    case DeleteFile(_) => IdleKeeps(w, Step(w, e));
    case Start(_, _) => IdleKeeps(w, Step(w, e));
    case Cancel(_) => IdleKeeps(w, Step(w, e));
    case Crash =>
    case SaveBegin(_) => IdleKeeps(w, Step(w, e));
    case SaveStep(ok) => SaveKeeps(w, Step(w, e));
  }

  lemma IdleKeeps(w: World, v: World)
    requires DisabledOk(w) && RestartOk(w) && v.mem == w.mem && v.config == w.config
    requires forall u | 0 <= u < |v.tasks| ::
               v.tasks[u].pc.Done? || v.tasks[u].pc.WaitGate? || (u < |w.tasks| && v.tasks[u] == w.tasks[u])
    ensures DisabledOk(v) && RestartOk(v)
  {
    forall u | 0 <= u < |v.tasks| ensures RestartTaskOk(v, u) {
      assert u < |w.tasks| ==> RestartTaskOk(w, u);
    }
  }

  lemma SaveKeeps(w: World, v: World)
    requires AllDone(w) && v.tasks == w.tasks
    ensures DisabledOk(v) && RestartOk(v)
  {
  }

  lemma {:induction false} RunKeepsInv(w: World, events: seq<Event>)
    requires Inv(w) && Run(w, events)
    ensures Inv(After(w, events))
    decreases |events|
  {
    if events != [] {
      StepKeepsInv(w, events[0]);
      RunKeepsInv(Step(w, events[0]), events[1..]);
    }
  }

  /** A Docker binding with a restart due in memory and on disk, whose definition no save in progress replaces. */
  predicate Waiting(w: World, id: string) {
    && Due(w.mem, id) && Due(w.disk, id)
    && id in w.config && w.config[id].target.DockerInput?
    && id in w.configOnDisk && w.configOnDisk[id] == w.config[id]
    && (w.save.Invalidated? || w.save.Reloaded? || w.save.Written? ==> !Changed(w.config, w.save.config, id))
  }

  /** A sync that failed or found its target missing under the disabling policy. */
  predicate Unsuccessful(outcome: Outcome) { outcome.Failed? || outcome.Disabled? }

  /** What takes a due restart off the record: an acknowledgement, an unsuccessful sync, or another definition; no successful sync. */
  predicate Ends(w: World, e: Event, id: string) {
    || (Records(w, e, id)
        && (w.tasks[e.t].pc.write.RecordAcknowledge?
            || (w.tasks[e.t].pc.write.RecordStatus? && Unsuccessful(w.tasks[e.t].pc.write.outcome))))
    || Forgets(w, e, id)
  }

  lemma TaskStepAndWaiting(w: World, v: World, t: nat, ok: bool, i: nat, id: string)
    requires Ready(w, t, ok, i) && Waiting(w, id) && RestartTaskOk(w, t) && EngineState.UpdateOk(w, t)
    requires EngineState.StateMove(w, v, t, NextPc(w, t, ok, i))
    ensures Waiting(v, id) <==> !Ends(w, TaskStep(t, ok, i), id)
  {
    var pc := w.tasks[t].pc;
    if (pc.HasState? || pc.Saved?) && w.tasks[t].binding != id {
      OwnStatusOnly(w, t, id);
    }
  }

  lemma SaveAndWaiting(w: World, ok: bool, id: string)
    requires Enabled(w, SaveStep(ok)) && Waiting(w, id)
    ensures Waiting(SaveConfig(w, ok), id) <==> !Ends(w, SaveStep(ok), id)
  {
  }

  /** A due restart stays due, in memory and on disk, through exactly the steps that do not end it. */
  lemma WaitingEndsExactly(w: World, e: Event, id: string)
    requires Inv(w) && Enabled(w, e) && Waiting(w, id)
    ensures Waiting(Step(w, e), id) <==> !Ends(w, e, id)
  {
    match e
    case TaskStep(t, ok, i) =>
      assert RestartTaskOk(w, t) && EngineState.UpdateOk(w, t);
      EngineState.AdvanceStateMove(w, t, ok, i);
      TaskStepAndWaiting(w, Step(w, e), t, ok, i, id);
    case SaveStep(ok) => SaveAndWaiting(w, ok, id);
    case Publish(_, _) =>
    case DeleteFile(_) =>
    case Start(_, _) =>
    case Cancel(_) =>
    case Crash =>
    case SaveBegin(_) =>
  }

  /** The restart is due at every moment of a run. */
  ghost predicate AlwaysWaiting(w: World, events: seq<Event>, id: string)
    requires Run(w, events)
    decreases |events|
  {
    Waiting(w, id) && (events != [] ==> AlwaysWaiting(Step(w, events[0]), events[1..], id))
  }

  ghost predicate NothingEnds(w: World, events: seq<Event>, id: string)
    requires Run(w, events)
    decreases |events|
  {
    events != [] ==> !Ends(w, events[0], id) && NothingEnds(Step(w, events[0]), events[1..], id)
  }

  /** Over a run, crashes and config saves included, a due restart is never forgotten if and only if no step ends it. */
  lemma {:induction false} NeverForgottenExactly(w: World, events: seq<Event>, id: string)
    requires Inv(w) && Run(w, events) && Waiting(w, id)
    ensures AlwaysWaiting(w, events, id) <==> NothingEnds(w, events, id)
    ensures NothingEnds(w, events, id) ==> Inv(After(w, events)) && Waiting(After(w, events), id)
    decreases |events|
  {
    if events != [] {
      StepKeepsInv(w, events[0]);
      WaitingEndsExactly(w, events[0], id);
      if Waiting(Step(w, events[0]), id) {
        NeverForgottenExactly(Step(w, events[0]), events[1..], id);
      }
    }
  }

  /**
   * From the moment a restart is due, along every such run, a Docker binding answers `RestartRequired` whenever a sync
   * of it answers that its target agrees with its source.
   */
  lemma RestartKeepsBeingReported(w: World, before: seq<Event>, events: seq<Event>, id: string, t: nat, ok: bool, i: nat)
    requires Init(w) && Run(w, before) && Waiting(After(w, before), id)
    requires Run(After(w, before), events) && NothingEnds(After(w, before), events, id)
    requires var z := After(After(w, before), events);
             Ready(z, t, ok, i) && z.tasks[t].kind.Sync? && z.tasks[t].binding == id
    ensures var answered := NextPc(After(After(w, before), events), t, ok, i);
            answered.Done? && A.Agreeing(answered.answer) ==> answered.answer == RestartRequired
  {
    RunKeepsInv(w, before);
    NeverForgottenExactly(After(w, before), events, id);
    var z := After(After(w, before), events);
    assert RestartTaskOk(z, t);
    if NextPc(z, t, ok, i).Done? && A.Agreeing(NextPc(z, t, ok, i).answer) {
      A.AnswerWasLogged(z, t, ok, i);
    }
  }

  /** A Docker apply makes a restart due as soon as the second of its two state writes is through. */
  lemma DockerApplyMakesRestartDue(w: World, t: nat)
    requires Inv(w) && Ready(w, t, true, 0) && BindingOf(w, t).target.DockerInput?
    requires w.tasks[t].pc.Saved? && w.tasks[t].pc.write.RecordStatus? && w.tasks[t].pc.write.outcome == RestartRequired
    ensures Waiting(Advance(w, t, true, 0), w.tasks[t].binding)
  {
    EngineState.AdvanceStateMove(w, t, true, 0);
    assert EngineState.UpdateOk(w, t);
    assert !w.tasks[t].pc.Done?;
  }
}
