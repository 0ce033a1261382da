/**
 * Runs that show where the engine's promises end, and that the assumptions made about the outside are needed. Each
 * begins with an engine that has just started.
 */
module EngineEdges {
  import opened Basics
  import opened Targets
  import opened Engine
  import A = EngineAgreement
  import L = EngineLifecycle
  import K = KeyValue
  import J = JsonPointer

  // ---- runs, one step more at a time ----

  lemma {:induction false} RunSnoc(w: World, events: seq<Event>, e: Event)
    requires Run(w, events) && Enabled(After(w, events), e)
    ensures Run(w, events + [e]) && After(w, events + [e]) == Step(After(w, events), e)
    decreases |events|
  {
    if events != [] {
      RunSnoc(Step(w, events[0]), events[1..], e);
      assert (events + [e])[1..] == events[1..] + [e];
    } else {
      assert [e][1..] == [];
    }
  }

  ghost predicate Reaches(w: World, z: World) {
    exists events :: Run(w, events) && After(w, events) == z
  }

  lemma ReachesSelf(w: World)
    ensures Reaches(w, w)
  {
    assert Run(w, []) && After(w, []) == w;
  }

  lemma ReachesNext(w: World, z: World, e: Event)
    requires Reaches(w, z) && Enabled(z, e)
    ensures Reaches(w, Step(z, e))
  {
    var events :| Run(w, events) && After(w, events) == z;
    RunSnoc(w, events, e);
  }

  // ---- one sync beside finished ones ----

  /** Nothing is going on that concerns this binding. */
  predicate Rests(z: World, id: string) {
    && id in z.config && z.save.Quiet? && z.mutex.None? && id !in z.gates && id !in z.mem.disabled && z.mem == z.disk
    && IdentityOf(z.config[id].target) !in z.targetGates
  }

  function LineOf(z: World, id: string): seq<Release>
    requires id in z.config
  {
    Timeline(z, z.config[id].source)
  }

  /** One more sync, past its gate. */
  function Under(z: World, id: string, pc: Pc): World {
    z.(tasks := z.tasks + [Task(id, Sync, pc)], gates := z.gates[id := |z.tasks|])
  }

  /** And past its target gate. */
  function Busy(z: World, id: string, pc: Pc): World
    requires id in z.config
  {
    Under(z, id, pc).(targetGates := z.targetGates[IdentityOf(z.config[id].target) := |z.tasks|])
  }

  predicate OnlyGate(pc: Pc) { HoldsGate(pc) && !HoldsTarget(pc) && !HoldsState(pc) }

  /** A step that writes nothing just moves its task. */
  lemma PlainStep(v: World, t: nat, ok: bool, i: nat, next: Pc)
    requires Ready(v, t, ok, i) && NextPc(v, t, ok, i) == next
    requires !v.tasks[t].pc.Applying? && !v.tasks[t].pc.HasState? && !v.tasks[t].pc.Saved?
    ensures Step(v, TaskStep(t, ok, i)) == Goto(v, t, next)
  {
  }

  lemma GateStep(z: World, id: string)
    requires Rests(z, id)
    ensures var started := z.(tasks := z.tasks + [Task(id, Sync, WaitGate)]);
            && Ready(started, |z.tasks|, true, 0) && NextPc(started, |z.tasks|, true, 0) == Entered
            && Goto(started, |z.tasks|, Entered) == Under(z, id, Entered)
  {
  }

  lemma Entering(w: World, z: World, id: string)
    requires Reaches(w, z) && Rests(z, id)
    ensures Reaches(w, Under(z, id, Entered))
  {
    var started := z.(tasks := z.tasks + [Task(id, Sync, WaitGate)]);
    ReachesNext(w, z, Start(id, Sync));
    GateStep(z, id);
    PlainStep(started, |z.tasks|, true, 0, Entered);
    ReachesNext(w, started, TaskStep(|z.tasks|, true, 0));
  }

  lemma GotoUnder(z: World, id: string, pc: Pc, next: Pc)
    requires Rests(z, id) && OnlyGate(pc) && OnlyGate(next)
    ensures Goto(Under(z, id, pc), |z.tasks|, next) == Under(z, id, next)
  {
  }

  lemma QuietStep(w: World, z: World, id: string, pc: Pc, next: Pc, ok: bool, i: nat)
    requires Reaches(w, Under(z, id, pc)) && Rests(z, id) && OnlyGate(pc) && OnlyGate(next) && !pc.Applying?
    requires Ready(Under(z, id, pc), |z.tasks|, ok, i) && NextPc(Under(z, id, pc), |z.tasks|, ok, i) == next
    ensures Reaches(w, Under(z, id, next))
  {
    PlainStep(Under(z, id, pc), |z.tasks|, ok, i, next);
    GotoUnder(z, id, pc, next);
    ReachesNext(w, Under(z, id, pc), TaskStep(|z.tasks|, ok, i));
  }

  // ---- recording an outcome ----

  function Recorded(s: State, id: string, outcome: Outcome): State { s.(status := s.status[id := outcome]) }

  /** What a sync leaves that recorded its outcome and answered it. */
  function Answered(z: World, id: string, outcome: Outcome, observed: Option<nat>): World {
    z.(tasks := z.tasks + [Task(id, Sync, Done(outcome, observed))],
       mem := Recorded(z.mem, id, outcome), disk := Recorded(z.mem, id, outcome))
  }

  /** A sync that holds the state, after the file was or was not replaced. */
  function Holding(z: World, id: string, pc: Pc, disk: State): World {
    Under(z, id, pc).(mutex := Some(|z.tasks|), disk := disk)
  }

  function Refused(z: World, id: string): World {
    z.(tasks := z.tasks + [Task(id, Sync, Done(Failed(StateError), None))])
  }

  lemma ComputeStatus(z: World, id: string, write: Write)
    requires Rests(z, id) && write.RecordStatus? && write.outcome != Disabled
    ensures var v, e := Under(z, id, NeedState(write)), TaskStep(|z.tasks|, true, 0);
            Enabled(v, e) && Step(v, e) == Holding(z, id, HasState(write, Recorded(z.mem, id, write.outcome)), z.disk)
  {
  }

  lemma WriteStatus(z: World, id: string, write: Write, next: State)
    requires Rests(z, id) && write.RecordStatus?
    ensures var v, e := Holding(z, id, HasState(write, next), z.disk), TaskStep(|z.tasks|, true, 0);
            Enabled(v, e) && Step(v, e) == Holding(z, id, Saved(write, next), next)
  {
  }

  lemma FailStatus(z: World, id: string, write: Write, next: State)
    requires Rests(z, id) && write.RecordStatus?
    ensures var v, e := Holding(z, id, HasState(write, next), z.disk), TaskStep(|z.tasks|, false, 0);
            Enabled(v, e) && Step(v, e) == Refused(z, id)
  {
  }

  lemma PublishStatus(z: World, id: string, write: Write, next: State)
    requires Rests(z, id) && write.RecordStatus?
    ensures var v, e := Holding(z, id, Saved(write, next), next), TaskStep(|z.tasks|, true, 0);
            Enabled(v, e) && Step(v, e) == Under(z, id, Logging(write.outcome, write.observed)).(mem := next, disk := next)
  {
  }

  lemma LogStatus(z: World, id: string, outcome: Outcome, observed: Option<nat>)
    requires Rests(z, id)
    ensures var next, e := Recorded(z.mem, id, outcome), TaskStep(|z.tasks|, true, 0);
            var v := Under(z, id, Logging(outcome, observed)).(mem := next, disk := next);
            Enabled(v, e) && Step(v, e) == Answered(z, id, outcome, observed)
  {
  }

  /** The last four steps of a sync. */
  lemma Concluding(w: World, z: World, id: string, outcome: Outcome, observed: Option<nat>)
    requires Rests(z, id) && outcome != Disabled
    requires Reaches(w, Under(z, id, NeedState(RecordStatus(outcome, observed))))
    ensures Reaches(w, Answered(z, id, outcome, observed))
  {
    var write, next, e := RecordStatus(outcome, observed), Recorded(z.mem, id, outcome), TaskStep(|z.tasks|, true, 0);
    ComputeStatus(z, id, write);
    ReachesNext(w, Under(z, id, NeedState(write)), e);
    WriteStatus(z, id, write, next);
    ReachesNext(w, Holding(z, id, HasState(write, next), z.disk), e);
    PublishStatus(z, id, write, next);
    ReachesNext(w, Holding(z, id, Saved(write, next), next), e);
    LogStatus(z, id, outcome, observed);
    ReachesNext(w, Under(z, id, Logging(outcome, observed)).(mem := next, disk := next), e);
  }

  /** Or, if the state file cannot be written, the sync answers that and records nothing. */
  lemma Refusing(w: World, z: World, id: string, outcome: Outcome, observed: Option<nat>)
    requires Rests(z, id) && outcome != Disabled
    requires Reaches(w, Under(z, id, NeedState(RecordStatus(outcome, observed))))
    ensures Reaches(w, Refused(z, id))
  {
    var write, next := RecordStatus(outcome, observed), Recorded(z.mem, id, outcome);
    ComputeStatus(z, id, write);
    ReachesNext(w, Under(z, id, NeedState(write)), TaskStep(|z.tasks|, true, 0));
    FailStatus(z, id, write, next);
    ReachesNext(w, Holding(z, id, HasState(write, next), z.disk), TaskStep(|z.tasks|, false, 0));
  }

  // ---- three kinds of syncs ----

  lemma Asking(w: World, z: World, id: string)
    requires Reaches(w, z) && Rests(z, id)
    requires IsMissing(z, z.config[id].target) ==> z.config[id].missing == Recreate
    ensures Reaches(w, Under(z, id, AwaitVersion(IsMissing(z, z.config[id].target), |LineOf(z, id)|)))
  {
    Entering(w, z, id);
    QuietStep(w, z, id, Entered, AwaitVersion(IsMissing(z, z.config[id].target), |LineOf(z, id)|), true, 0);
  }

  /** The current version is the recorded one. */
  predicate Current(z: World, id: string, i: nat) {
    && Rests(z, id) && !IsMissing(z, z.config[id].target) && |LineOf(z, id)| == i + 1 && SafeVersion(LineOf(z, id)[i].version)
    && id in z.mem.applied && z.mem.applied[id] == LineOf(z, id)[i].version
  }

  /** A sync that finds the recorded version current answers `Unchanged` unless a restart is due. */
  lemma QuietSync(w: World, z: World, id: string, i: nat)
    requires Reaches(w, z) && Current(z, id, i) && !L.Due(z.mem, id)
    ensures Reaches(w, Answered(z, id, Unchanged, Some(i)))
  {
    Asking(w, z, id);
    QuietStep(w, z, id, AwaitVersion(false, i + 1), NeedState(RecordStatus(Unchanged, Some(i))), true, i);
    Concluding(w, z, id, Unchanged, Some(i));
  }

  lemma FailingSync(w: World, z: World, id: string)
    requires Reaches(w, z) && Rests(z, id) && !IsMissing(z, z.config[id].target)
    ensures Reaches(w, Answered(z, id, Failed(Source), None))
  {
    Asking(w, z, id);
    QuietStep(w, z, id, AwaitVersion(false, |LineOf(z, id)|), NeedState(RecordStatus(Failed(Source), None)), false, 0);
    Concluding(w, z, id, Failed(Source), None);
  }

  function PriorOf(z: World, id: string): Option<Content>
    requires id in z.config
  {
    var identity := IdentityOf(z.config[id].target);
    if identity in z.targets then Some(z.targets[identity]) else None
  }

  predicate CanApply(z: World, id: string, i: nat) {
    && Rests(z, id) && |LineOf(z, id)| == i + 1 && SafeVersion(LineOf(z, id)[i].version)
    && LineOf(z, id)[i].payload.kind == z.config[id].kind
    && (PriorOf(z, id).None? ==> z.config[id].missing == Recreate)
    && (IsMissing(z, z.config[id].target) || !(id in z.mem.applied && z.mem.applied[id] == LineOf(z, id)[i].version))
    && z.medium.render(z.config[id].target, PriorOf(z, id), LineOf(z, id)[i].payload).Some?
  }

  /** The target is written, the state is not. */
  function Overwritten(z: World, id: string, i: nat): World
    requires CanApply(z, id, i)
  {
    var b := z.config[id];
    z.(targets := z.targets[IdentityOf(b.target) := z.medium.render(b.target, PriorOf(z, id), LineOf(z, id)[i].payload).value],
       reached := z.reached[id := i])
  }

  function Noted(z: World, id: string, i: nat): State
    requires CanApply(z, id, i)
  {
    z.mem.(applied := z.mem.applied[id := LineOf(z, id)[i].version])
  }

  /** The target is written and so is the first of the two records. */
  function Half(z: World, id: string, i: nat): World
    requires CanApply(z, id, i)
  {
    Overwritten(z, id, i).(mem := Noted(z, id, i), disk := Noted(z, id, i), under := z.under[id := z.config[id]])
  }

  function OutcomeOf(z: World, id: string): Outcome
    requires id in z.config
  {
    if z.config[id].target.DockerInput? then RestartRequired else Applied
  }

  lemma Fetching(w: World, z: World, id: string, i: nat)
    requires Reaches(w, z) && CanApply(z, id, i)
    ensures Reaches(w, Under(z, id, AwaitValue(i)))
  {
    Asking(w, z, id);
    QuietStep(w, z, id, AwaitVersion(IsMissing(z, z.config[id].target), i + 1), AwaitValue(i), true, i);
  }

  lemma LockStep(z: World, id: string, i: nat)
    requires CanApply(z, id, i)
    ensures var payload := LineOf(z, id)[i].payload;
            var v, e := Under(z, id, WaitTarget(i, payload)), TaskStep(|z.tasks|, true, 0);
            Enabled(v, e) && Step(v, e) == Busy(z, id, Applying(i, payload, PriorOf(z, id)))
  {
    var payload, next := LineOf(z, id)[i].payload, Applying(i, LineOf(z, id)[i].payload, PriorOf(z, id));
    PlainStep(Under(z, id, WaitTarget(i, payload)), |z.tasks|, true, 0, next);
    GotoTarget(z, id, WaitTarget(i, payload), next);
  }

  lemma GotoTarget(z: World, id: string, pc: Pc, next: Pc)
    requires Rests(z, id) && OnlyGate(pc) && HoldsGate(next) && HoldsTarget(next) && !HoldsState(next)
    ensures Goto(Under(z, id, pc), |z.tasks|, next) == Busy(z, id, next)
  {
  }

  /** The step that writes the target. */
  lemma WriteTarget(v: World, t: nat)
    requires Ready(v, t, true, 0) && v.tasks[t].pc.Applying?
    requires ApplySucceeds(v.medium, BindingOf(v, t), v.tasks[t].pc.prior, v.tasks[t].pc.payload, true)
    ensures var b, pc := BindingOf(v, t), v.tasks[t].pc;
            Step(v, TaskStep(t, true, 0)) ==
            Goto(v, t, NeedState(RecordApplied(pc.seen)))
              .(targets := v.targets[IdentityOf(b.target) := v.medium.render(b.target, pc.prior, pc.payload).value],
                reached := v.reached[v.tasks[t].binding := pc.seen])
  {
  }

  lemma GotoBusy(z: World, id: string, pc: Pc, next: Pc)
    requires Rests(z, id) && HoldsTarget(pc) && HoldsTarget(next) && !HoldsState(pc) && !HoldsState(next)
    ensures Goto(Busy(z, id, pc), |z.tasks|, next) == Busy(z, id, next)
  {
  }

  lemma ApplyStep(z: World, id: string, i: nat)
    requires CanApply(z, id, i)
    ensures var v, e := Busy(z, id, Applying(i, LineOf(z, id)[i].payload, PriorOf(z, id))), TaskStep(|z.tasks|, true, 0);
            Enabled(v, e) && Step(v, e) == Busy(Overwritten(z, id, i), id, NeedState(RecordApplied(i)))
  {
    var pc := Applying(i, LineOf(z, id)[i].payload, PriorOf(z, id));
    WriteTarget(Busy(z, id, pc), |z.tasks|);
    GotoBusy(z, id, pc, NeedState(RecordApplied(i)));
  }

  lemma Writing(w: World, z: World, id: string, i: nat)
    requires Reaches(w, z) && CanApply(z, id, i)
    ensures Reaches(w, Busy(Overwritten(z, id, i), id, NeedState(RecordApplied(i))))
  {
    var payload, e := LineOf(z, id)[i].payload, TaskStep(|z.tasks|, true, 0);
    Fetching(w, z, id, i);
    QuietStep(w, z, id, AwaitValue(i), WaitTarget(i, payload), true, 0);
    LockStep(z, id, i);
    ReachesNext(w, Under(z, id, WaitTarget(i, payload)), e);
    ApplyStep(z, id, i);
    ReachesNext(w, Busy(z, id, Applying(i, payload, PriorOf(z, id))), e);
  }

  /** The sync of an apply while it holds the state. */
  function Keeping(z: World, id: string, pc: Pc): World
    requires id in z.config
  {
    Busy(z, id, pc).(mutex := Some(|z.tasks|))
  }

  /** The steps that replace the state file and that publish the state. */
  lemma WriteState(v: World, t: nat)
    requires t < |v.tasks| && v.tasks[t].binding in v.config && v.tasks[t].pc.HasState?
    ensures var id, pc := v.tasks[t].binding, v.tasks[t].pc;
            Step(v, TaskStep(t, true, 0)) ==
            Goto(v, t, Saved(pc.write, pc.next))
              .(disk := pc.next, under := if pc.write.RecordApplied? then v.under[id := v.config[id]] else v.under)
  {
  }

  lemma PublishState(v: World, t: nat)
    requires t < |v.tasks| && v.tasks[t].binding in v.config && v.tasks[t].pc.Saved?
    ensures Step(v, TaskStep(t, true, 0)) ==
            Goto(v, t, PublishedPc(BindingOf(v, t), v.tasks[t].pc.write)).(mem := v.tasks[t].pc.next)
  {
  }

  lemma GotoTaking(z: World, id: string, pc: Pc, next: Pc)
    requires Rests(z, id) && HoldsTarget(pc) && HoldsTarget(next) && !HoldsState(pc) && HoldsState(next)
    ensures Goto(Busy(z, id, pc), |z.tasks|, next) == Keeping(z, id, next)
  {
  }

  lemma GotoKeeping(z: World, id: string, pc: Pc, next: Pc)
    requires Rests(z, id) && HoldsTarget(pc) && HoldsTarget(next) && HoldsState(pc) && HoldsState(next)
    ensures Goto(Keeping(z, id, pc), |z.tasks|, next) == Keeping(z, id, next)
  {
  }

  lemma GotoDone(z: World, id: string, pc: Pc, next: Pc)
    requires Rests(z, id) && HoldsTarget(pc) && HoldsState(pc) && OnlyGate(next)
    ensures Goto(Keeping(z, id, pc), |z.tasks|, next) == Under(z, id, next)
  {
  }

  lemma OverwrittenRests(z: World, id: string, i: nat)
    requires CanApply(z, id, i)
    ensures Rests(Overwritten(z, id, i), id) && |Overwritten(z, id, i).tasks| == |z.tasks|
  {
  }

  lemma ComputeStep(z: World, id: string, i: nat)
    requires CanApply(z, id, i)
    ensures var v, e := Busy(Overwritten(z, id, i), id, NeedState(RecordApplied(i))), TaskStep(|z.tasks|, true, 0);
            Enabled(v, e) && Step(v, e) == Keeping(Overwritten(z, id, i), id, HasState(RecordApplied(i), Noted(z, id, i)))
  {
    var over, next := Overwritten(z, id, i), HasState(RecordApplied(i), Noted(z, id, i));
    OverwrittenRests(z, id, i);
    PlainStep(Busy(over, id, NeedState(RecordApplied(i))), |z.tasks|, true, 0, next);
    GotoTaking(over, id, NeedState(RecordApplied(i)), next);
  }

  lemma NoteStep(z: World, id: string, i: nat)
    requires CanApply(z, id, i)
    ensures var v := Keeping(Overwritten(z, id, i), id, HasState(RecordApplied(i), Noted(z, id, i)));
            var e := TaskStep(|z.tasks|, true, 0);
            Enabled(v, e) &&
            Step(v, e) == Keeping(Overwritten(z, id, i), id, Saved(RecordApplied(i), Noted(z, id, i)))
                            .(disk := Noted(z, id, i), under := z.under[id := z.config[id]])
  {
    var over, pc := Overwritten(z, id, i), HasState(RecordApplied(i), Noted(z, id, i));
    OverwrittenRests(z, id, i);
    WriteState(Keeping(over, id, pc), |z.tasks|);
    GotoKeeping(over, id, pc, Saved(RecordApplied(i), Noted(z, id, i)));
  }

  lemma ShowStep(z: World, id: string, i: nat)
    requires CanApply(z, id, i)
    ensures var v := Keeping(Overwritten(z, id, i), id, Saved(RecordApplied(i), Noted(z, id, i)))
                       .(disk := Noted(z, id, i), under := z.under[id := z.config[id]]);
            var e := TaskStep(|z.tasks|, true, 0);
            Enabled(v, e) && Step(v, e) == Under(Half(z, id, i), id, NeedState(RecordStatus(OutcomeOf(z, id), Some(i))))
  {
    var over, pc := Overwritten(z, id, i), Saved(RecordApplied(i), Noted(z, id, i));
    OverwrittenRests(z, id, i);
    PublishState(Keeping(over, id, pc).(disk := Noted(z, id, i), under := z.under[id := z.config[id]]), |z.tasks|);
    GotoDone(over, id, pc, NeedState(RecordStatus(OutcomeOf(z, id), Some(i))));
  }

  /** A sync up to the moment between its two records. */
  lemma Halfway(w: World, z: World, id: string, i: nat)
    requires Reaches(w, z) && CanApply(z, id, i)
    ensures Reaches(w, Under(Half(z, id, i), id, NeedState(RecordStatus(OutcomeOf(z, id), Some(i)))))
  {
    var e := TaskStep(|z.tasks|, true, 0);
    Writing(w, z, id, i);
    ComputeStep(z, id, i);
    ReachesNext(w, Busy(Overwritten(z, id, i), id, NeedState(RecordApplied(i))), e);
    NoteStep(z, id, i);
    ReachesNext(w, Keeping(Overwritten(z, id, i), id, HasState(RecordApplied(i), Noted(z, id, i))), e);
    ShowStep(z, id, i);
    ReachesNext(w, Keeping(Overwritten(z, id, i), id, Saved(RecordApplied(i), Noted(z, id, i)))
                     .(disk := Noted(z, id, i), under := z.under[id := z.config[id]]), e);
  }

  lemma HalfRests(z: World, id: string, i: nat, other: string)
    requires CanApply(z, id, i) && Rests(z, other)
    ensures Rests(Half(z, id, i), other)
  {
  }

  lemma ApplySync(w: World, z: World, id: string, i: nat)
    requires Reaches(w, z) && CanApply(z, id, i)
    ensures Reaches(w, Answered(Half(z, id, i), id, OutcomeOf(z, id), Some(i)))
  {
    Halfway(w, z, id, i);
    HalfRests(z, id, i, id);
    Concluding(w, Half(z, id, i), id, OutcomeOf(z, id), Some(i));
  }

  /** A crash leaves what is on disk. */
  function Crashed(z: World): World {
    z.(tasks := [], mutex := None, gates := map[], targetGates := map[], mem := z.disk)
  }

  lemma Crashing(w: World, z: World)
    requires Reaches(w, z) && z.config == z.configOnDisk && z.save.Quiet? && forall id | id in z.reached :: id in z.config
    ensures Reaches(w, Crashed(z))
  {
    ReachesNext(w, z, Crash);
    assert KeepUnchanged(z.reached, z.config, z.config) == z.reached;
    assert Step(z, Crash) == Crashed(z);
  }

  // ---- starts ----

  /** An engine that has just started beside some targets and sources. */
  function Started(medium: Medium, config: Config, targets: map<Identity, Content>, timeline: map<string, seq<Release>>): World {
    var empty := State(map[], map[], {});
    World(config, config, empty, empty, None, map[], map[], [], Engine.Quiet, medium, targets, timeline, map[], map[], {})
  }

  lemma StartedIsFresh(medium: Medium, config: Config, targets: map<Identity, Content>, timeline: map<string, seq<Release>>)
    requires Sound(medium) && A.Exclusive(config, {}) && forall s | s in timeline :: |timeline[s]| == 1
    ensures A.FreshStart(Started(medium, config, targets, timeline))
  {
    var w := Started(medium, config, targets, timeline);
    forall s ensures A.DistinctVersions(Timeline(w, s)) {}
  }

  lemma Publishing(w: World, z: World, source: string, release: Release)
    requires Reaches(w, z)
    ensures Reaches(w, z.(timeline := z.timeline[source := Timeline(z, source) + [release]]))
  {
    ReachesNext(w, z, Publish(source, release));
  }

  // ---- a version that recurs ----

  const R1 := Release("1", Payload([1], Text))
  const R2 := Release("2", Payload([2], Text))
  const WHOLE := Binding("s", Text, WholeFile("f"), Alert)

  lemma WholeStart(c: Codecs) returns (w: World)
    requires Lawful(c)
    ensures A.FreshStart(w) && w.config == w.configOnDisk == map["b" := WHOLE] && CanApply(w, "b", 0) && w.tasks == []
    ensures w.timeline == map["s" := [R1]] && w.medium == MediumOf(c)
  {
    w := Started(MediumOf(c), map["b" := WHOLE], map[File("f") := FileOf([])], map["s" := [R1]]);
    StartedIsFresh(MediumOf(c), map["b" := WHOLE], map[File("f") := FileOf([])], map["s" := [R1]]);
    assert Timeline(w, "s") == [R1];
  }

  /** Version 1 applied, and version 2 published. */
  lemma TwoVersions(c: Codecs) returns (w: World, z: World)
    requires Lawful(c)
    ensures A.FreshStart(w) && w.medium == MediumOf(c) && Reaches(w, z) && z.tasks == [Task("b", Sync, Done(Applied, Some(0)))]
    ensures z.config == z.configOnDisk == map["b" := WHOLE] && z.timeline == map["s" := [R1, R2]] && CanApply(z, "b", 1)
    ensures z.mem.applied == map["b" := "1"] && z.mem.status == map["b" := Applied] && z.medium == w.medium && z.reached == map["b" := 0]
  {
    w := WholeStart(c);
    ReachesSelf(w);
    ApplySync(w, w, "b", 0);
    var one := Answered(Half(w, "b", 0), "b", Applied, Some(0));
    Publishing(w, one, "s", R2);
    assert Timeline(one, "s") == [R1] && [R1] + [R2] == [R1, R2];
    z := one.(timeline := one.timeline["s" := [R1, R2]]);
    assert z.timeline == map["s" := [R1, R2]] && Timeline(z, "s") == [R1, R2];
  }

  /** Version 2 is written and the process crashes before it records that. */
  lemma CutOff(c: Codecs) returns (w: World, z: World)
    requires Lawful(c)
    ensures A.FreshStart(w) && w.medium == MediumOf(c) && Reaches(w, z) && z.medium == w.medium
    ensures z.tasks == [] && z.config == map["b" := WHOLE] && z.timeline == map["s" := [R1, R2]] && Rests(z, "b")
    ensures File("f") in z.targets && z.targets[File("f")] == FileOf(R2.payload.bytes)
    ensures z.mem.applied == map["b" := "1"] && z.mem.status == map["b" := Applied]
  {
    var two;
    w, two := TwoVersions(c);
    Writing(w, two, "b", 1);
    var cut := Busy(Overwritten(two, "b", 1), "b", NeedState(RecordApplied(1)));
    Crashing(w, cut);
    z := Crashed(cut);
  }

  /** If version 1 then comes back, a sync answers `Unchanged` while the target holds version 2. */
  lemma RecurringVersionMisleads(c: Codecs) returns (w: World, z: World)
    requires Lawful(c)
    ensures A.FreshStart(w) && Reaches(w, z) && Timeline(z, "s") == [R1, R2, R1]
    ensures |z.tasks| == 1 && z.tasks[0].pc == Done(Unchanged, Some(2)) && !A.ContentIs(z, WHOLE, 2)
  {
    var cut;
    w, cut := CutOff(c);
    Publishing(w, cut, "s", R1);
    assert Timeline(cut, "s") == [R1, R2];
    var back := cut.(timeline := cut.timeline["s" := [R1, R2] + [R1]]);
    assert Timeline(back, "s") == [R1, R2, R1];
    QuietSync(w, back, "b", 2);
    z := Answered(back, "b", Unchanged, Some(2));
    assert Sound(MediumOf(c));
    assert !Holds(c, WHOLE.target, FileOf(R2.payload.bytes), R1.payload);
  }

  // ---- a due restart that is forgotten ----

  function EnvLine(key: string, missing: Policy, source: string): Binding {
    Binding(source, Text, DockerInput("f", key, EnvFile), missing)
  }

  function Value(c: Codecs): Release { Release("1", Payload(c.encode("v"), Text)) }

  lemma EmptyFileTakesKey(key: string)
    ensures K.Upsert("", key, "v", K.SingleQuoted).Ok?
  {
    assert K.Lines("") == [];
  }

  ghost function DockerWorld(c: Codecs): World {
    Started(MediumOf(c), map["b" := EnvLine("K", Alert, "s")], map[File("f") := FileOf(c.encode(""))], map["s" := [Value(c)]])
  }

  lemma EmptyFileRenders(c: Codecs, b: Binding)
    requires Lawful(c) && b == EnvLine("K", Alert, "s")
    ensures Render(c, b.target, Some(FileOf(c.encode(""))), Value(c).payload).Some?
  {
    EmptyFileTakesKey("K");
    assert PlaceOf(b.target) == Line(K.SingleQuoted, "K");
    assert RenderText(c, b.target, "", "v", Text).Some?;
  }

  lemma DockerCanApply(c: Codecs)
    requires Lawful(c)
    ensures CanApply(DockerWorld(c), "b", 0) && !IsMissing(DockerWorld(c), EnvLine("K", Alert, "s").target)
  {
    assert Timeline(DockerWorld(c), "s") == [Value(c)] && SafeVersion("1");
    EmptyFileRenders(c, EnvLine("K", Alert, "s"));
  }

  /** One Docker binding on an empty file, and a value for it. */
  lemma DockerStart(c: Codecs) returns (w: World)
    requires Lawful(c)
    ensures A.FreshStart(w) && w.config == w.configOnDisk == map["b" := EnvLine("K", Alert, "s")]
    ensures CanApply(w, "b", 0) && w.tasks == [] && w.timeline == map["s" := [Value(c)]] && w.reached == map[]
    ensures !IsMissing(w, w.config["b"].target) && w.mem.status == map[] && w.medium == MediumOf(c)
  {
    w := DockerWorld(c);
    StartedIsFresh(w.medium, w.config, w.targets, w.timeline);
    DockerCanApply(c);
  }

  lemma DueDocker(c: Codecs) returns (w: World, due: World)
    requires Lawful(c)
    ensures A.FreshStart(w) && Reaches(w, due) && L.Waiting(due, "b") && Current(due, "b", 0)
    ensures due.tasks == [Task("b", Sync, Done(RestartRequired, Some(0)))]
  {
    w := DockerStart(c);
    ReachesSelf(w);
    ApplySync(w, w, "b", 0);
    due := Answered(Half(w, "b", 0), "b", RestartRequired, Some(0));
  }

  /** A failed check overwrites a due restart, and the next successful sync no longer mentions it. */
  lemma FailedCheckForgetsRestart(c: Codecs) returns (w: World, due: World, z: World)
    requires Lawful(c)
    ensures A.FreshStart(w) && Reaches(w, due) && L.Waiting(due, "b") && Reaches(due, z)
    ensures due.tasks == [Task("b", Sync, Done(RestartRequired, Some(0)))]
    ensures z.tasks == due.tasks + [Task("b", Sync, Done(Failed(Source), None)), Task("b", Sync, Done(Unchanged, Some(0)))]
  {
    w, due := DueDocker(c);
    ReachesSelf(due);
    FailingSync(due, due, "b");
    var failed := Answered(due, "b", Failed(Source), None);
    QuietSync(due, failed, "b", 0);
    z := Answered(failed, "b", Unchanged, Some(0));
  }

  /** A crash between the two records of a Docker apply loses the restart: the next sync answers `Unchanged`. */
  lemma CrashBetweenWritesForgetsRestart(c: Codecs) returns (w: World, z: World)
    requires Lawful(c)
    ensures A.FreshStart(w) && Reaches(w, z) && z.reached == map["b" := 0]
    ensures z.tasks == [Task("b", Sync, Done(Unchanged, Some(0)))]
  {
    w := DockerStart(c);
    ReachesSelf(w);
    Halfway(w, w, "b", 0);
    var cut := Under(Half(w, "b", 0), "b", NeedState(RecordStatus(RestartRequired, Some(0))));
    Crashing(w, cut);
    QuietSync(w, Crashed(cut), "b", 0);
    z := Answered(Crashed(cut), "b", Unchanged, Some(0));
  }

  /** And so does a failure of the second write alone. */
  lemma SecondWriteFailureForgetsRestart(c: Codecs) returns (w: World, z: World)
    requires Lawful(c)
    ensures A.FreshStart(w) && Reaches(w, z) && z.reached == map["b" := 0]
    ensures z.tasks == [Task("b", Sync, Done(Failed(StateError), None)), Task("b", Sync, Done(Unchanged, Some(0)))]
  {
    w := DockerStart(c);
    ReachesSelf(w);
    Halfway(w, w, "b", 0);
    HalfRests(w, "b", 0, "b");
    Refusing(w, Half(w, "b", 0), "b", RestartRequired, Some(0));
    var refused := Refused(Half(w, "b", 0), "b");
    QuietSync(w, refused, "b", 0);
    z := Answered(refused, "b", Unchanged, Some(0));
  }

  // ---- one file, several bindings ----

  /** An apply to a file that is new to the binding or missing, and what it leaves. */
  lemma FileSync(w: World, z: World, id: string, content: Content) returns (v: World)
    requires Reaches(w, z) && Rests(z, id) && (id in z.mem.applied ==> File("f") !in z.targets)
    requires z.config[id].source == "s" && z.config[id].kind == Text && z.timeline == map["s" := [Value(z.medium.codecs)]]
    requires IdentityOf(z.config[id].target) == File("f") && (File("f") in z.targets || z.config[id].missing == Recreate)
    requires z.medium.render(z.config[id].target, PriorOf(z, id), Value(z.medium.codecs).payload) == Some(content)
    ensures Reaches(w, v) && v.tasks == z.tasks + [Task(id, Sync, Done(OutcomeOf(z, id), Some(0)))]
    ensures v.config == z.config && v.timeline == z.timeline && v.medium == z.medium && v.targets == z.targets[File("f") := content]
    ensures v.mem.applied == z.mem.applied[id := "1"] && v.mem.status == z.mem.status[id := OutcomeOf(z, id)]
    ensures forall other | Rests(z, other) :: Rests(v, other)
  {
    assert Timeline(z, "s") == [Value(z.medium.codecs)];
    ApplySync(w, z, id, 0);
    v := Answered(Half(z, id, 0), id, OutcomeOf(z, id), Some(0));
  }

  /** A later sync of the same version. */
  lemma RepeatedSync(w: World, z: World, id: string) returns (v: World)
    requires Reaches(w, z) && Rests(z, id) && !L.Due(z.mem, id) && id in z.mem.applied && z.mem.applied[id] == "1"
    requires z.config[id].source == "s" && z.timeline == map["s" := [Value(z.medium.codecs)]] && !IsMissing(z, z.config[id].target)
    ensures Reaches(w, v) && v.tasks == z.tasks + [Task(id, Sync, Done(Unchanged, Some(0)))]
    ensures v.config == z.config && v.timeline == z.timeline && v.medium == z.medium && v.targets == z.targets
  {
    assert Timeline(z, "s") == [Value(z.medium.codecs)];
    QuietSync(w, z, id, 0);
    v := Answered(z, id, Unchanged, Some(0));
  }

  /** Whether a binding of version 1 still finds its value. */
  lemma ContentOfFile(z: World, b: Binding, content: Content)
    requires b.source == "s" && z.timeline == map["s" := [Value(z.medium.codecs)]]
    requires IdentityOf(b.target) == File("f") && File("f") in z.targets && z.targets[File("f")] == content
    ensures A.ContentIs(z, b, 0) <==> z.medium.holds(b.target, content, Value(z.medium.codecs).payload)
  {
    assert Timeline(z, "s") == [Value(z.medium.codecs)];
  }

  /** Two bindings of one file, each applied once. */
  lemma TwoWrites(w: World, first: string, second: string, one: Content, two: Content) returns (z: World)
    requires Rests(w, first) && Rests(w, second) && first != second && w.mem.applied == map[] && w.mem.status == map[] && w.tasks == []
    requires w.timeline == map["s" := [Value(w.medium.codecs)]] && File("f") in w.targets
    requires forall id | id in {first, second} ::
               w.config[id].source == "s" && w.config[id].kind == Text && IdentityOf(w.config[id].target) == File("f") &&
               !w.config[id].target.DockerInput?
    requires w.medium.render(w.config[first].target, Some(w.targets[File("f")]), Value(w.medium.codecs).payload) == Some(one)
    requires w.medium.render(w.config[second].target, Some(one), Value(w.medium.codecs).payload) == Some(two)
    ensures Reaches(w, z) && z.config == w.config && z.medium == w.medium && z.timeline == w.timeline
    ensures z.tasks == [Task(first, Sync, Done(Applied, Some(0))), Task(second, Sync, Done(Applied, Some(0)))]
    ensures z.targets == w.targets[File("f") := two] && Rests(z, first) && Rests(z, second)
    ensures z.mem.applied == map[first := "1", second := "1"] && z.mem.status == map[first := Applied, second := Applied]
  {
    ReachesSelf(w);
    var v := FileSync(w, w, first, one);
    z := FileSync(w, v, second, two);
  }

  // ---- places that are not disjoint ----

  function JsonField(key: string): Binding { Binding("s", Text, StructuredField("f", key, Targets.Json), Alert) }

  function NestedConfig(): Config { map["x" := JsonField("/a"), "y" := JsonField("/a/b")] }

  const NESTED := J.Object(map["a" := J.Object(map["b" := J.Null])])

  function JsonFile(c: Codecs, doc: J.Json): Content { FileOf(c.encode(c.renderJson(doc))) }

  lemma PointerTexts()
    ensures J.Path("/a") == Some(["a"]) && J.Path("/a/b") == Some(["a", "b"])
  {
    J.PathOfPointer(["a"]);
    J.PathOfPointer(["a", "b"]);
    assert J.Escape("a") == "a" && J.Escape("b") == "b";
    assert ["a"][1..] == [] && ["a", "b"][1..] == ["b"] && ["b"][1..] == [];
    assert J.Pointer(["b"]) == "/b" && J.Pointer(["a"]) == "/a" && J.Pointer(["a", "b"]) == "/a" + "/b" == "/a/b";
  }

  /** Both keys are accepted and legible; only the places overlap. */
  lemma NestedOverlaps()
    ensures forall id | id in NestedConfig() :: AcceptedKey(NestedConfig()[id].target) && Legible(NestedConfig()[id].target)
    ensures !A.Exclusive(NestedConfig(), {})
  {
    PointerTexts();
    assert ["a"] <= ["a", "b"];
    assert IdentityOf(NestedConfig()["x"].target) == IdentityOf(NestedConfig()["y"].target) &&
           !Disjoint(PlaceOf(NestedConfig()["x"].target), PlaceOf(NestedConfig()["y"].target));
  }

  /** What a fresh start asks, except that places do not overlap. */
  ghost predicate AlmostFresh(w: World) {
    && Init(w) && Sound(w.medium) && A.LinesOk(w)
    && forall id | id in w.config :: AcceptedKey(w.config[id].target) && Legible(w.config[id].target)
  }

  lemma NestedStart(c: Codecs) returns (w: World)
    requires Lawful(c)
    ensures AlmostFresh(w) && w.medium == MediumOf(c) && w.tasks == [] && w.config == NestedConfig() && w.solo == {}
    ensures w.targets == map[File("f") := JsonFile(c, NESTED)] && w.timeline == map["s" := [Value(c)]]
    ensures Rests(w, "x") && Rests(w, "y") && w.mem.applied == map[] && w.mem.status == map[]
  {
    NestedOverlaps();
    w := Started(MediumOf(c), NestedConfig(), map[File("f") := JsonFile(c, NESTED)], map["s" := [Value(c)]]);
    forall s ensures A.DistinctVersions(Timeline(w, s)) {}
  }

  function InnerDoc(): J.Json { J.Object(map["a" := J.Object(map["b" := J.String("v")])]) }

  function OuterDoc(): J.Json { J.Object(map["a" := J.String("v")]) }

  lemma NestedWrites()
    ensures J.Put(NESTED, ["a", "b"], J.String("v")) == Some(InnerDoc())
    ensures J.Put(InnerDoc(), ["a"], J.String("v")) == Some(OuterDoc()) && J.Get(OuterDoc(), ["a", "b"]) == None
  {
    var v, nulls, inner := J.String("v"), J.Object(map["b" := J.Null]), J.Object(map["b" := J.String("v")]);
    assert ["a", "b"][1..] == ["b"] && ["b"][1..] == [] && ["a"][1..] == [];
    assert nulls.fields["b" := v] == inner.fields && J.Put(nulls, ["b"], v) == Some(J.WithChild(nulls, "b", v));
    assert NESTED.fields["a" := inner] == InnerDoc().fields && J.Put(NESTED, ["a", "b"], v) == Some(J.WithChild(NESTED, "a", inner));
    assert InnerDoc().fields["a" := v] == OuterDoc().fields && J.Put(InnerDoc(), ["a"], v) == Some(J.WithChild(InnerDoc(), "a", v));
    assert J.Get(OuterDoc(), ["a", "b"]) == J.Get(v, ["b"]);
  }

  lemma FieldRenders(c: Codecs, key: string, path: seq<string>, doc: J.Json, now: J.Json)
    requires Lawful(c) && J.Path(key) == Some(path) && J.Put(doc, path, J.String("v")) == Some(now)
    ensures Render(c, JsonField(key).target, Some(JsonFile(c, doc)), Value(c).payload) == Some(JsonFile(c, now))
  {
    assert J.RenderJson(c.parseJson, c.renderJson, Some(c.renderJson(doc)), key, Some("v"), Text) == Ok(c.renderJson(now));
    assert RenderText(c, JsonField(key).target, c.renderJson(doc), "v", Text) == Some(c.renderJson(now));
  }

  lemma NestedRenders(c: Codecs)
    requires Lawful(c)
    ensures Render(c, JsonField("/a/b").target, Some(JsonFile(c, NESTED)), Value(c).payload) == Some(JsonFile(c, InnerDoc()))
    ensures Render(c, JsonField("/a").target, Some(JsonFile(c, InnerDoc())), Value(c).payload) == Some(JsonFile(c, OuterDoc()))
  {
    PointerTexts();
    NestedWrites();
    FieldRenders(c, "/a/b", ["a", "b"], NESTED, InnerDoc());
    FieldRenders(c, "/a", ["a"], InnerDoc(), OuterDoc());
  }

  lemma NestedMissing(c: Codecs)
    requires Lawful(c)
    ensures !Holds(c, JsonField("/a/b").target, JsonFile(c, OuterDoc()), Value(c).payload)
  {
    PointerTexts();
    NestedWrites();
  }

  lemma OverlapRun(w: World, inner: Content, outer: Content) returns (z: World)
    requires w.config == NestedConfig() && Rests(w, "x") && Rests(w, "y")
    requires w.mem.applied == map[] && w.mem.status == map[] && w.tasks == []
    requires w.timeline == map["s" := [Value(w.medium.codecs)]] && File("f") in w.targets
    requires w.medium.render(JsonField("/a/b").target, Some(w.targets[File("f")]), Value(w.medium.codecs).payload) == Some(inner)
    requires w.medium.render(JsonField("/a").target, Some(inner), Value(w.medium.codecs).payload) == Some(outer)
    requires !w.medium.holds(JsonField("/a/b").target, outer, Value(w.medium.codecs).payload)
    ensures Reaches(w, z) && z.config == w.config && !A.ContentIs(z, NestedConfig()["y"], 0)
    ensures z.tasks == [Task("y", Sync, Done(Applied, Some(0))), Task("x", Sync, Done(Applied, Some(0))),
                        Task("y", Sync, Done(Unchanged, Some(0)))]
  {
    var two := TwoWrites(w, "y", "x", inner, outer);
    z := RepeatedSync(w, two, "y");
    ContentOfFile(z, NestedConfig()["y"], outer);
  }

  /**
   * Two fields of one document, one inside the other: writing the outer destroys the inner, and the next sync of the
   * inner answers `Unchanged` over nothing.
   */
  lemma OverlappingPointersMislead(c: Codecs) returns (w: World, z: World)
    requires Lawful(c)
    ensures AlmostFresh(w) && w.config == z.config == NestedConfig() && !A.Exclusive(w.config, w.solo) && Reaches(w, z)
    ensures z.tasks == [Task("y", Sync, Done(Applied, Some(0))), Task("x", Sync, Done(Applied, Some(0))),
                        Task("y", Sync, Done(Unchanged, Some(0)))]
    ensures !A.ContentIs(z, NestedConfig()["y"], 0)
  {
    NestedOverlaps();
    NestedRenders(c);
    NestedMissing(c);
    w := NestedStart(c);
    z := OverlapRun(w, JsonFile(c, InnerDoc()), JsonFile(c, OuterDoc()));
  }

  // ---- a shared file that another program deletes ----

  function EnvField(key: string, missing: Policy): Binding { Binding("s", Text, StructuredField("f", key, DotEnv), missing) }

  function SharedConfig(): Config {
    map["x" := EnvField("K", Recreate), "y" := EnvField("L", Alert)]
  }

  lemma SharedStart(c: Codecs) returns (w: World)
    requires Lawful(c)
    ensures A.FreshStart(w) && w.medium == MediumOf(c) && w.tasks == [] && w.config == SharedConfig()
    ensures w.targets == map[File("f") := FileOf(c.encode(""))] && w.timeline == map["s" := [Value(c)]]
    ensures Rests(w, "x") && Rests(w, "y") && w.mem.applied == map[] && w.mem.status == map[]
  {
    SharedIsExclusive();
    StartedIsFresh(MediumOf(c), SharedConfig(), map[File("f") := FileOf(c.encode(""))], map["s" := [Value(c)]]);
    w := Started(MediumOf(c), SharedConfig(), map[File("f") := FileOf(c.encode(""))], map["s" := [Value(c)]]);
  }

  lemma SharedIsExclusive()
    ensures A.Exclusive(SharedConfig(), {})
  {
    var c := SharedConfig();
    assert PlaceOf(c["x"].target) == Line(K.SingleQuoted, "K") && PlaceOf(c["y"].target) == Line(K.SingleQuoted, "L");
  }

  function OneKey(): string
    requires K.Upsert("", "K", "v", K.SingleQuoted).Ok?
  {
    K.Upsert("", "K", "v", K.SingleQuoted).value
  }

  /** The file with the first key alone has no line for the second. */
  lemma OneKeyFile()
    ensures K.Upsert("", "K", "v", K.SingleQuoted).Ok?
    ensures K.Upsert(OneKey(), "L", "v", K.SingleQuoted).Ok? && !LineHolds(OneKey(), K.SingleQuoted, "L", "v")
  {
    EmptyFileTakesKey("K");
    var file := OneKey();
    forall i | 0 <= i < |K.Lines(file)| ensures !K.Sets(K.Lines(file)[i], "L", K.SingleQuoted) {
      K.OtherKeysRead("", "K", "v", K.SingleQuoted, "L", i);
    }
  }

  lemma EnvRender(c: Codecs, key: string, prior: Option<Content>, source: string)
    requires Lawful(c) && K.Upsert(source, key, "v", K.SingleQuoted).Ok?
    requires prior == Some(FileOf(c.encode(source))) || (prior == None && source == "")
    ensures Render(c, StructuredField("f", key, DotEnv), prior, Value(c).payload) ==
            Some(FileOf(c.encode(K.Upsert(source, key, "v", K.SingleQuoted).value)))
  {
  }

  /** The file with one key, and with both. */
  function OneKeyContent(c: Codecs): Content
    requires K.Upsert("", "K", "v", K.SingleQuoted).Ok?
  {
    FileOf(c.encode(OneKey()))
  }

  function BothKeysContent(c: Codecs): Content
    requires K.Upsert("", "K", "v", K.SingleQuoted).Ok? && K.Upsert(OneKey(), "L", "v", K.SingleQuoted).Ok?
  {
    FileOf(c.encode(K.Upsert(OneKey(), "L", "v", K.SingleQuoted).value))
  }

  lemma SharedRenders(c: Codecs)
    requires Lawful(c)
    ensures K.Upsert("", "K", "v", K.SingleQuoted).Ok? && K.Upsert(OneKey(), "L", "v", K.SingleQuoted).Ok?
    ensures Render(c, EnvField("K", Recreate).target, Some(FileOf(c.encode(""))), Value(c).payload) == Some(OneKeyContent(c))
    ensures Render(c, EnvField("L", Alert).target, Some(OneKeyContent(c)), Value(c).payload) == Some(BothKeysContent(c))
    ensures Render(c, EnvField("K", Recreate).target, None, Value(c).payload) == Some(OneKeyContent(c))
    ensures !Holds(c, EnvField("L", Alert).target, OneKeyContent(c), Value(c).payload)
  {
    OneKeyFile();
    EnvRender(c, "K", Some(FileOf(c.encode(""))), "");
    EnvRender(c, "L", Some(OneKeyContent(c)), OneKey());
    EnvRender(c, "K", None, "");
  }

  lemma DeletionRun(w: World, one: Content, two: Content) returns (z: World)
    requires w.config == SharedConfig() && Rests(w, "x") && Rests(w, "y")
    requires w.mem.applied == map[] && w.mem.status == map[] && w.tasks == []
    requires w.timeline == map["s" := [Value(w.medium.codecs)]] && File("f") in w.targets
    requires w.medium.render(EnvField("K", Recreate).target, Some(w.targets[File("f")]), Value(w.medium.codecs).payload) == Some(one)
    requires w.medium.render(EnvField("L", Alert).target, Some(one), Value(w.medium.codecs).payload) == Some(two)
    requires w.medium.render(EnvField("K", Recreate).target, None, Value(w.medium.codecs).payload) == Some(one)
    requires !w.medium.holds(EnvField("L", Alert).target, one, Value(w.medium.codecs).payload)
    ensures Reaches(w, z) && z.config == w.config && !A.ContentIs(z, SharedConfig()["y"], 0)
    ensures z.tasks == [Task("x", Sync, Done(Applied, Some(0))), Task("y", Sync, Done(Applied, Some(0))),
                        Task("x", Sync, Done(Applied, Some(0))), Task("y", Sync, Done(Unchanged, Some(0)))]
  {
    var both := TwoWrites(w, "x", "y", one, two);
    ReachesNext(w, both, DeleteFile("f"));
    var deleted := both.(targets := both.targets - {File("f")});
    var again := FileSync(w, deleted, "x", one);
    z := RepeatedSync(w, again, "y");
    ContentOfFile(z, SharedConfig()["y"], one);
  }

  /**
   * A program that deletes a file of two bindings, neither of them running: one binding recreates the file, and the
   * other, which would only have raised an alert, then answers `Unchanged` over a file without its line.
   */
  lemma SharedFileDeletionMisleads(c: Codecs) returns (w: World, z: World)
    requires Lawful(c)
    ensures A.FreshStart(w) && Reaches(w, z) && w.config == z.config == SharedConfig()
    ensures z.tasks == [Task("x", Sync, Done(Applied, Some(0))), Task("y", Sync, Done(Applied, Some(0))),
                        Task("x", Sync, Done(Applied, Some(0))), Task("y", Sync, Done(Unchanged, Some(0)))]
    ensures !A.ContentIs(z, SharedConfig()["y"], 0)
  {
    SharedRenders(c);
    w := SharedStart(c);
    z := DeletionRun(w, OneKeyContent(c), BothKeysContent(c));
  }
}
