/** What the state records about a binding, and what a call's answer says about the record. */
module EngineRecords {
  import opened Basics
  import opened Targets
  import opened Engine
  import opened EngineLocks
  import EngineState
  import A = EngineAgreement
  import L = EngineLifecycle

  /** The three records of one id agree. */
  predicate SameRecord(s: State, r: State, id: string) {
    && (id in s.applied <==> id in r.applied) && (id in s.applied ==> s.applied[id] == r.applied[id])
    && (id in s.status <==> id in r.status) && (id in s.status ==> s.status[id] == r.status[id])
    && (id in s.disabled <==> id in r.disabled)
  }

  /** A release that may be written: its version can be recorded. */
  predicate Recordable(line: seq<Release>, seen: nat) { seen < |line| && SafeVersion(line[seen].version) }

  /** The observed release is the one recorded as applied. */
  predicate Observes(s: State, id: string, line: seq<Release>, observed: Option<nat>) {
    observed.Some? ==>
      observed.value < |line| && id in s.applied && s.applied[id] == line[observed.value].version
  }

  /** What a call is about to answer is on record. */
  predicate Says(s: State, id: string, kind: Kind, outcome: Outcome) {
    match kind
    case Sync => id in s.status && s.status[id] == outcome && (outcome.Disabled? ==> id in s.disabled)
    case Enable => id !in s.disabled
    case Acknowledge => id in s.status && s.status[id] == Unchanged
  }

  ghost predicate PendingOk(w: World, id: string, b: Binding, kind: Kind, write: Write) {
    match write
    case RecordApplied(seen) => kind.Sync? && Recordable(Timeline(w, b.source), seen)
    case RecordStatus(outcome, observed) =>
      && kind.Sync? && (outcome.Disabled? ==> b.missing.Disable?)
      && Observes(w.mem, id, Timeline(w, b.source), observed) && Observes(w.disk, id, Timeline(w, b.source), observed)
    case RecordEnable => kind.Enable?
    case RecordAcknowledge => kind.Acknowledge? && b.target.DockerInput?
  }

  ghost predicate PcOk(w: World, id: string, b: Binding, kind: Kind, pc: Pc) {
    match pc
    case WaitGate => true
    case Entered => true
    case AwaitVersion(missing, _) => kind.Sync? && (missing ==> b.missing.Recreate?)
    case AwaitValue(seen) => kind.Sync? && Recordable(Timeline(w, b.source), seen)
    case WaitTarget(seen, payload) => kind.Sync? && Recordable(Timeline(w, b.source), seen) && payload.kind == b.kind
    case Applying(seen, payload, _) => kind.Sync? && Recordable(Timeline(w, b.source), seen) && payload.kind == b.kind
    case NeedState(write) => PendingOk(w, id, b, kind, write)
    case HasState(write, _) => PendingOk(w, id, b, kind, write)
    case Saved(write, _) => PendingOk(w, id, b, kind, write)
    case Logging(outcome, observed) =>
      && Says(w.mem, id, kind, outcome) && Says(w.disk, id, kind, outcome)
      && Observes(w.mem, id, Timeline(w, b.source), observed) && Observes(w.disk, id, Timeline(w, b.source), observed)
    case Done(_, _) => true
  }

  ghost predicate TaskOk(w: World, t: nat)
    requires t < |w.tasks|
  {
    w.tasks[t].binding in w.config ==>
      PcOk(w, w.tasks[t].binding, w.config[w.tasks[t].binding], w.tasks[t].kind, w.tasks[t].pc)
  }

  predicate Disabling(c: Config, id: string) { id in c && c[id].missing.Disable? }

  /** Only bindings whose policy says so are disabled, and only versions that may be recorded are. */
  ghost predicate StateOk(w: World, s: State) {
    && (forall id | id in s.disabled :: Disabling(w.config, id) && Disabling(w.configOnDisk, id))
    && (!w.save.Quiet? && !w.save.Draining? ==> forall id | id in s.disabled :: Disabling(w.save.config, id))
    && (forall id | id in s.applied :: SafeVersion(s.applied[id]))
  }

  ghost predicate Inv(w: World) {
    && EngineState.Inv(w) && StateOk(w, w.mem) && StateOk(w, w.disk)
    && forall t | 0 <= t < |w.tasks| :: TaskOk(w, t)
  }

  // ---- one task step ----

  /** An update changes the records of its own binding only. */
  lemma OwnRecordsOnly(w: World, t: nat, other: string)
    requires t < |w.tasks| && EngineState.UpdateOk(w, t) && (w.tasks[t].pc.HasState? || w.tasks[t].pc.Saved?)
    requires other != w.tasks[t].binding
    ensures SameRecord(w.mem, w.tasks[t].pc.next, other)
  {
  }

  lemma MoveKeepsOthersRecords(w: World, v: World, t: nat, pc: Pc, other: string)
    requires t < |w.tasks| && EngineState.UpdateOk(w, t) && EngineState.StateMove(w, v, t, pc)
    requires other != w.tasks[t].binding
    ensures SameRecord(w.mem, v.mem, other) && SameRecord(w.disk, v.disk, other)
  {
    if w.tasks[t].pc.HasState? || w.tasks[t].pc.Saved? {
      OwnRecordsOnly(w, t, other);
    }
  }

  /** What a program point says depends on the records of its own binding, and on a source that only grows. */
  lemma PcOkFrame(w: World, v: World, id: string, b: Binding, kind: Kind, pc: Pc)
    requires PcOk(w, id, b, kind, pc) && SameRecord(w.mem, v.mem, id) && SameRecord(w.disk, v.disk, id)
    requires Timeline(w, b.source) <= Timeline(v, b.source)
    ensures PcOk(v, id, b, kind, pc)
  {
    assert forall i | 0 <= i < |Timeline(w, b.source)| :: Timeline(v, b.source)[i] == Timeline(w, b.source)[i];
  }

  lemma EnterPcOk(w: World, t: nat, ok: bool)
    requires Ready(w, t, ok, 0) && w.tasks[t].pc.Entered?
    ensures PcOk(w, w.tasks[t].binding, BindingOf(w, t), w.tasks[t].kind, EnterPc(w, t, ok))
  {
  }

  lemma CheckedPcOk(w: World, t: nat, ok: bool, i: nat)
    requires Ready(w, t, ok, i) && TaskOk(w, t) && w.mem == w.disk && (w.tasks[t].pc.AwaitVersion? || w.tasks[t].pc.AwaitValue?)
    ensures PcOk(w, w.tasks[t].binding, BindingOf(w, t), w.tasks[t].kind, NextPc(w, t, ok, i))
  {
  }

  lemma FetchedPcOk(w: World, t: nat, ok: bool, i: nat)
    requires Ready(w, t, ok, i) && TaskOk(w, t) && w.tasks[t].pc.AwaitValue?
    ensures PcOk(w, w.tasks[t].binding, BindingOf(w, t), w.tasks[t].kind, NextPc(w, t, ok, i))
  {
  }

  lemma WorkedPcOk(w: World, t: nat, ok: bool, i: nat)
    requires Ready(w, t, ok, i) && TaskOk(w, t)
    requires w.tasks[t].pc.WaitGate? || w.tasks[t].pc.WaitTarget? || w.tasks[t].pc.Applying? || w.tasks[t].pc.Logging?
    ensures PcOk(w, w.tasks[t].binding, BindingOf(w, t), w.tasks[t].kind, NextPc(w, t, ok, i))
  {
  }

  lemma ComputedPcOk(w: World, t: nat, ok: bool, i: nat)
    requires Ready(w, t, ok, i) && TaskOk(w, t) && w.tasks[t].pc.NeedState?
    ensures PcOk(w, w.tasks[t].binding, BindingOf(w, t), w.tasks[t].kind, NextPc(w, t, ok, i))
  {
  }

  /** The state file is replaced, or not: what the update says of its binding stays true. */
  lemma WrittenPcOk(w: World, v: World, t: nat, ok: bool, i: nat)
    requires Ready(w, t, ok, i) && TaskOk(w, t) && w.tasks[t].pc.HasState? && EngineState.UpdateOk(w, t)
    requires EngineState.StateMove(w, v, t, NextPc(w, t, ok, i))
    ensures PcOk(v, w.tasks[t].binding, BindingOf(w, t), w.tasks[t].kind, NextPc(w, t, ok, i))
  {
    assert Timeline(v, BindingOf(w, t).source) == Timeline(w, BindingOf(w, t).source);
  }

  /** The state becomes visible, and with it what the call answers. */
  lemma PublishedPcOk(w: World, v: World, t: nat, ok: bool, i: nat)
    requires Ready(w, t, ok, i) && TaskOk(w, t) && w.tasks[t].pc.Saved? && EngineState.UpdateOk(w, t)
    requires EngineState.StateMove(w, v, t, NextPc(w, t, ok, i))
    ensures PcOk(v, w.tasks[t].binding, BindingOf(w, t), w.tasks[t].kind, NextPc(w, t, ok, i))
  {
    assert Timeline(v, BindingOf(w, t).source) == Timeline(w, BindingOf(w, t).source);
    assert v.mem == v.disk == w.tasks[t].pc.next;
  }

  lemma OwnTaskOk(w: World, v: World, t: nat, ok: bool, i: nat)
    requires EngineState.Inv(w) && Ready(w, t, ok, i) && TaskOk(w, t)
    requires EngineState.StateMove(w, v, t, NextPc(w, t, ok, i))
    ensures TaskOk(v, t)
  {
    var id, b, kind, pc := w.tasks[t].binding, BindingOf(w, t), w.tasks[t].kind, w.tasks[t].pc;
    assert EngineState.UpdateOk(w, t);
    if pc.HasState? {
      WrittenPcOk(w, v, t, ok, i);
    } else if pc.Saved? {
      PublishedPcOk(w, v, t, ok, i);
    } else {
      if pc.Entered? {
        EnterPcOk(w, t, ok);
      } else if pc.AwaitVersion? {
        CheckedPcOk(w, t, ok, i);
      } else if pc.AwaitValue? {
        FetchedPcOk(w, t, ok, i);
      } else if pc.NeedState? {
        ComputedPcOk(w, t, ok, i);
      } else {
        WorkedPcOk(w, t, ok, i);
      }
      PcOkFrame(w, v, id, b, kind, NextPc(w, t, ok, i));
    }
  }

  /** Two tasks past the gate are of different bindings, so one does not touch what the other says. */
  lemma OtherTaskOk(w: World, v: World, t: nat, pc: Pc, u: nat)
    requires EngineState.Inv(w) && t < |w.tasks| && HoldsGate(w.tasks[t].pc) && EngineState.StateMove(w, v, t, pc)
    requires u < |w.tasks| && u != t && TaskOk(w, u)
    ensures TaskOk(v, u)
  {
    var task := w.tasks[u];
    if HoldsGate(task.pc) && task.binding in w.config {
      assert EngineState.UpdateOk(w, t) && task.binding != w.tasks[t].binding;
      MoveKeepsOthersRecords(w, v, t, pc, task.binding);
      PcOkFrame(w, v, task.binding, w.config[task.binding], task.kind, task.pc);
    }
  }

  lemma EnteringKeepsTask(w: World, v: World, t: nat, pc: Pc, u: nat)
    requires t < |w.tasks| && w.tasks[t].pc.WaitGate? && EngineState.StateMove(w, v, t, pc)
    requires u < |w.tasks| && u != t && TaskOk(w, u)
    ensures TaskOk(v, u)
  {
    var task := w.tasks[u];
    if task.binding in w.config {
      assert Timeline(v, w.config[task.binding].source) == Timeline(w, w.config[task.binding].source);
      PcOkFrame(w, v, task.binding, w.config[task.binding], task.kind, task.pc);
    }
  }

  /** What an update computes disables only by policy, and records only what may be recorded. */
  lemma NextStateOk(w: World, t: nat)
    requires EngineState.Inv(w) && StateOk(w, w.mem) && t < |w.tasks| && w.tasks[t].binding in w.config && TaskOk(w, t)
    requires w.tasks[t].pc.HasState? || w.tasks[t].pc.Saved?
    ensures StateOk(w, w.tasks[t].pc.next)
  {
    assert EngineState.UpdateOk(w, t) && !w.tasks[t].pc.Done?;
    assert (w.save.Quiet? || w.save.Draining?) && w.config == w.configOnDisk;
  }

  lemma MoveKeepsStates(w: World, v: World, t: nat, pc: Pc)
    requires EngineState.Inv(w) && StateOk(w, w.mem) && StateOk(w, w.disk)
    requires t < |w.tasks| && w.tasks[t].binding in w.config && TaskOk(w, t) && EngineState.StateMove(w, v, t, pc)
    ensures StateOk(v, v.mem) && StateOk(v, v.disk)
  {
    if w.tasks[t].pc.HasState? || w.tasks[t].pc.Saved? {
      NextStateOk(w, t);
    }
  }

  lemma TaskStepKeepsInv(w: World, t: nat, ok: bool, i: nat)
    requires Inv(w) && Ready(w, t, ok, i)
    ensures Inv(Advance(w, t, ok, i))
  {
    var v, pc := Advance(w, t, ok, i), NextPc(w, t, ok, i);
    EngineState.TaskStepKeepsInv(w, t, ok, i);
    EngineState.AdvanceStateMove(w, t, ok, i);
    assert TaskOk(w, t);
    MoveKeepsStates(w, v, t, pc);
    forall u | 0 <= u < |v.tasks| ensures TaskOk(v, u) {
      if u == t {
        OwnTaskOk(w, v, t, ok, i);
      } else if w.tasks[t].pc.WaitGate? {
        EnteringKeepsTask(w, v, t, pc, u);
      } else {
        OtherTaskOk(w, v, t, pc, u);
      }
    }
  }

  // ---- the other events ----

  lemma TasksGrow(w: World, v: World)
    requires (forall t | 0 <= t < |w.tasks| :: TaskOk(w, t)) && v.mem == w.mem && v.disk == w.disk && v.config == w.config
    requires forall source :: Timeline(w, source) <= Timeline(v, source)
    requires forall u | 0 <= u < |v.tasks| ::
               v.tasks[u].pc.Done? || v.tasks[u].pc.WaitGate? || (u < |w.tasks| && v.tasks[u] == w.tasks[u])
    ensures forall u | 0 <= u < |v.tasks| :: TaskOk(v, u)
  {
    forall u | 0 <= u < |v.tasks| ensures TaskOk(v, u) {
      var task := v.tasks[u];
      if task.binding in v.config && !task.pc.Done? && !task.pc.WaitGate? {
        assert TaskOk(w, u);
        PcOkFrame(w, v, task.binding, w.config[task.binding], task.kind, task.pc);
      }
    }
  }

  lemma QuietEventKeepsTasks(w: World, e: Event)
    requires (forall t | 0 <= t < |w.tasks| :: TaskOk(w, t)) && Enabled(w, e) && !e.TaskStep? && !e.SaveStep? && !e.Crash?
    ensures var v := Step(w, e); forall u | 0 <= u < |v.tasks| :: TaskOk(v, u)
  {
    assert forall source :: Timeline(w, source) <= Timeline(Step(w, e), source);
    TasksGrow(w, Step(w, e));
  }

  lemma QuietEventKeepsStates(w: World, e: Event)
    requires StateOk(w, w.mem) && StateOk(w, w.disk) && Enabled(w, e) && !e.TaskStep? && !e.SaveStep?
    ensures StateOk(Step(w, e), Step(w, e).mem) && StateOk(Step(w, e), Step(w, e).disk)
  {
  }

  lemma SaveKeepsStates(w: World, ok: bool)
    requires StateOk(w, w.mem) && StateOk(w, w.disk) && Enabled(w, SaveStep(ok))
    ensures StateOk(SaveConfig(w, ok), SaveConfig(w, ok).mem) && StateOk(SaveConfig(w, ok), SaveConfig(w, ok).disk)
  {
  }

  lemma StepKeepsInv(w: World, e: Event)
    requires Inv(w) && Enabled(w, e)
    ensures Inv(Step(w, e))
  {
    EngineState.InvKept(w, e);
    match e
    case TaskStep(t, ok, i) => TaskStepKeepsInv(w, t, ok, i);
    case SaveStep(ok) => SaveKeepsStates(w, ok);
    case Crash => QuietEventKeepsStates(w, e);
    case _ =>
      QuietEventKeepsTasks(w, e);
      QuietEventKeepsStates(w, e);
  }

  lemma {:induction false} RunKeepsInv(w: World, events: seq<Event>)
    requires Inv(w) && Run(w, events)
    ensures Inv(After(w, events))
    decreases |events|
  {
    if events != [] {
      StepKeepsInv(w, events[0]);
      RunKeepsInv(Step(w, events[0]), events[1..]);
    }
  }

  // ---- what holds of every run ----

  /** In every run, the steps of a call leave the records of all other bindings as they were. */
  lemma OthersRecordsStay(w: World, events: seq<Event>, t: nat, ok: bool, i: nat, other: string)
    requires Init(w) && Run(w, events) && Ready(After(w, events), t, ok, i) && other != After(w, events).tasks[t].binding
    ensures var z := After(w, events); var v := Advance(z, t, ok, i);
            SameRecord(z.mem, v.mem, other) && SameRecord(z.disk, v.disk, other)
  {
    EngineState.RunKeepsInv(w, events);
    var z := After(w, events);
    assert EngineState.UpdateOk(z, t);
    EngineState.AdvanceStateMove(z, t, ok, i);
    MoveKeepsOthersRecords(z, Advance(z, t, ok, i), t, NextPc(z, t, ok, i), other);
  }

  /**
   * What a call answers is on record when it answers, in memory and in the state file: the outcome of a sync, the
   * version it observed as the applied one, and that a disabled binding is disabled; that an enabled one is not; and
   * that an acknowledged restart is no longer due.
   */
  lemma AnswersAreOnRecord(w: World, events: seq<Event>, t: nat, i: nat)
    requires Init(w) && Run(w, events) && Ready(After(w, events), t, true, i) && After(w, events).tasks[t].pc.Logging?
    ensures var z := After(w, events); var v := Advance(z, t, true, i);
            var task, line := z.tasks[t], Timeline(z, BindingOf(z, t).source);
            && v.tasks[t].pc == Done(task.pc.outcome, task.pc.observed)
            && Says(v.mem, task.binding, task.kind, task.pc.outcome) && Says(v.disk, task.binding, task.kind, task.pc.outcome)
            && Observes(v.mem, task.binding, line, task.pc.observed) && Observes(v.disk, task.binding, line, task.pc.observed)
  {
    RunKeepsInv(w, events);
    var z := After(w, events);
    assert TaskOk(z, t);
    EngineState.AdvanceStateMove(z, t, true, i);
  }

  lemma DisabledComesFrom(z: World, t: nat, ok: bool, i: nat)
    requires Ready(z, t, ok, i) && z.tasks[t].kind.Sync? && NextPc(z, t, ok, i).Done? && NextPc(z, t, ok, i).answer.Disabled?
    ensures (z.tasks[t].pc.Entered? && z.tasks[t].binding in z.mem.disabled && z.mutex.None?) ||
            (z.tasks[t].pc.Logging? && z.tasks[t].pc.outcome.Disabled?)
  {
  }

  lemma DisabledIsSilenced(z: World, t: nat, ok: bool, i: nat)
    requires Inv(z) && Ready(z, t, ok, i) && z.tasks[t].kind.Sync?
    requires (z.tasks[t].pc.Entered? && z.tasks[t].binding in z.mem.disabled) || (z.tasks[t].pc.Logging? && z.tasks[t].pc.outcome.Disabled?)
    ensures L.Silenced(z, z.tasks[t].binding) && Disabling(z.config, z.tasks[t].binding)
  {
    assert TaskOk(z, t);
  }

  /** A sync that answers `Disabled` leaves its binding disabled, in memory and in the state file. */
  lemma DisabledAnswerSilences(w: World, events: seq<Event>, t: nat, ok: bool, i: nat)
    requires Init(w) && Run(w, events) && Ready(After(w, events), t, ok, i) && After(w, events).tasks[t].kind.Sync?
    requires NextPc(After(w, events), t, ok, i).Done? && NextPc(After(w, events), t, ok, i).answer.Disabled?
    ensures var z := After(w, events);
            L.Silenced(Advance(z, t, ok, i), z.tasks[t].binding) && Disabling(z.config, z.tasks[t].binding)
  {
    RunKeepsInv(w, events);
    var z := After(w, events);
    DisabledComesFrom(z, t, ok, i);
    DisabledIsSilenced(z, t, ok, i);
    EngineState.AdvanceStateMove(z, t, ok, i);
  }

  /**
   * So after such an answer, along every run in which the binding is neither enabled nor redefined, no sync of it asks
   * the source or writes the target.
   */
  lemma DisabledAnswerSticks(w: World, before: seq<Event>, t: nat, ok: bool, i: nat,
                             events: seq<Event>, u: nat, good: bool, j: nat)
    requires Init(w) && Run(w, before) && Ready(After(w, before), t, ok, i) && After(w, before).tasks[t].kind.Sync?
    requires NextPc(After(w, before), t, ok, i).Done? && NextPc(After(w, before), t, ok, i).answer.Disabled?
    requires var v := Advance(After(w, before), t, ok, i);
             Run(v, events) && L.NeverReenabled(v, events, After(w, before).tasks[t].binding)
    requires var z := After(Advance(After(w, before), t, ok, i), events);
             Ready(z, u, good, j) && z.tasks[u].kind.Sync? && z.tasks[u].binding == After(w, before).tasks[t].binding
    ensures var z := After(Advance(After(w, before), t, ok, i), events); var v := Advance(z, u, good, j);
            && !L.Working(z.tasks[u].pc) && !L.Working(v.tasks[u].pc) && v.targets == z.targets
            && (z.tasks[u].pc.Entered? ==> v.tasks[u].pc == Done(Disabled, None))
  {
    DisabledAnswerSilences(w, before, t, ok, i);
    L.RunKeepsInv(w, before);
    var v := Advance(After(w, before), t, ok, i);
    L.StepKeepsInv(After(w, before), TaskStep(t, ok, i));
    L.SilencedRun(v, events, After(w, before).tasks[t].binding);
    L.LeftAlone(After(v, events), u, good, j);
  }

  /** In every run a binding is disabled only if its policy for a missing target says so. */
  lemma DisabledByPolicy(w: World, events: seq<Event>, id: string)
    requires Init(w) && Run(w, events)
    requires id in After(w, events).mem.disabled || id in After(w, events).disk.disabled
    ensures Disabling(After(w, events).config, id)
  {
    RunKeepsInv(w, events);
  }

  /** In every run a target is written only with a payload of the declared type, and only versions that may be recorded are. */
  lemma OnlyDeclaredTypesApplied(w: World, events: seq<Event>, t: nat, ok: bool)
    requires Init(w) && Run(w, events) && Ready(After(w, events), t, ok, 0) && A.Writes(After(w, events), t, ok)
    ensures var z := After(w, events);
            z.tasks[t].pc.payload.kind == BindingOf(z, t).kind && Recordable(Timeline(z, BindingOf(z, t).source), z.tasks[t].pc.seen)
  {
    RunKeepsInv(w, events);
    assert TaskOk(After(w, events), t);
  }

  /**
   * In every run a call is refused as invalid exactly if it has no effect to have: an enabling of a binding that is not
   * disabled, an acknowledgement where no restart of a Docker binding is due; a sync never is.
   */
  lemma RefusedWithoutEffect(w: World, events: seq<Event>, t: nat, i: nat)
    requires Init(w) && Run(w, events) && Ready(After(w, events), t, true, i) && After(w, events).tasks[t].pc.NeedState?
    ensures var z := After(w, events); var id, kind := z.tasks[t].binding, z.tasks[t].kind;
            NextPc(z, t, true, i) == Done(Failed(InvalidConfig), None) <==>
              (kind.Enable? && id !in z.mem.disabled) || (kind.Acknowledge? && !L.Due(z.mem, id))
  {
    RunKeepsInv(w, events);
    assert TaskOk(After(w, events), t);
  }

  /** A step creates a missing file only under the policy that recreates it. */
  lemma OnlyRecreateCreates(w: World, t: nat, ok: bool, i: nat)
    requires Ready(w, t, ok, i) && IsMissing(w, BindingOf(w, t).target)
    requires !IsMissing(Advance(w, t, ok, i), BindingOf(w, t).target)
    requires w.tasks[t].pc.Applying? ==> w.tasks[t].pc.prior.None?
    ensures BindingOf(w, t).missing.Recreate?
  {
  }

  /** In every run a sync that found its file missing asks the source only under that policy. */
  lemma MissingAsksOnlyToRecreate(w: World, events: seq<Event>, t: nat)
    requires Init(w) && Run(w, events) && t < |After(w, events).tasks| && After(w, events).tasks[t].binding in After(w, events).config
    requires After(w, events).tasks[t].pc.AwaitVersion? && After(w, events).tasks[t].pc.missing
    ensures BindingOf(After(w, events), t).missing.Recreate?
  {
    RunKeepsInv(w, events);
    assert TaskOk(After(w, events), t);
  }

  // ---- a save leaves alone what it does not redefine ----

  /** Both configurations define the id, and in the same way. */
  predicate Untouched(before: Config, after: Config, id: string) {
    id in before && id in after && before[id] == after[id]
  }

  lemma UntouchedStays(s: State, before: Config, after: Config, id: string)
    requires Untouched(before, after, id)
    ensures SameRecord(s, Invalidate(s, before, after), id)
  {
  }

  lemma SaveAndUntouched(w: World, v: World, ok: bool, id: string)
    requires Enabled(w, SaveStep(ok)) && v == SaveConfig(w, ok) && Untouched(w.config, w.save.config, id)
    ensures w.save.Draining? && ok ==> SameRecord(w.mem, v.mem, id) && SameRecord(w.mem, v.disk, id)
    ensures !(w.save.Draining? && ok) ==> v.disk == w.disk && (v.mem == w.mem || v.mem == w.disk)
  {
    UntouchedStays(w.mem, w.config, w.save.config, id);
  }

  /** No step of a save ends that a binding is disabled or that a restart is due, unless the save touches its definition. */
  lemma SaveKeepsUntouched(w: World, ok: bool, id: string)
    requires Enabled(w, SaveStep(ok)) && Untouched(w.config, w.save.config, id)
    ensures L.Silenced(w, id) ==> L.Silenced(SaveConfig(w, ok), id)
    ensures L.Waiting(w, id) ==> L.Waiting(SaveConfig(w, ok), id)
    ensures w.mem == w.disk ==> SameRecord(w.mem, SaveConfig(w, ok).mem, id) && SameRecord(w.disk, SaveConfig(w, ok).disk, id)
  {
    SaveAndUntouched(w, SaveConfig(w, ok), ok, id);
    if L.Waiting(w, id) {
      L.SaveAndWaiting(w, ok, id);
    }
  }

  /** The invalidation of a save leaves no record of an id that it adds, removes or redefines. */
  lemma SaveForgetsTouched(w: World, id: string)
    requires Enabled(w, SaveStep(true)) && w.save.Draining?
    requires id in w.config || id in w.save.config
    requires !Untouched(w.config, w.save.config, id)
    ensures var s := SaveConfig(w, true).disk; id !in s.applied && id !in s.status && id !in s.disabled
  {
  }
}
