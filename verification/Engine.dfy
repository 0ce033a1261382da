/**
 * The sync engine as steps between the points where a task can be interleaved with others: gates, calls to the
 * source, the write of the target, and the three parts of a state update (lock and compute, replace the file,
 * publish in memory). Every external call can fail, tasks can be cancelled while they wait, and the process can crash.
 */
module Engine {
  import opened Basics
  import opened Targets

  datatype Category = InvalidConfig | Source | VersionConflict | Target | StateError

  datatype Outcome = Unchanged | Applied | RestartRequired | Disabled | Failed(category: Category)

  datatype Policy = Alert | Recreate | Disable

  datatype Binding = Binding(source: string, kind: SecretType, target: TargetSpec, missing: Policy)

  type Config = map<string, Binding>

  datatype State = State(applied: map<string, string>, status: map<string, Outcome>, disabled: set<string>)

  /** One version of a source entry, in the order in which versions became current. */
  datatype Release = Release(version: string, payload: Payload)

  datatype Kind = Sync | Enable | Acknowledge

  /** A pending update of the state; `seen` is the place of the observed release in its source's timeline. */
  datatype Write =
    | RecordApplied(seen: nat)
    | RecordStatus(outcome: Outcome, observed: Option<nat>)
    | RecordEnable
    | RecordAcknowledge

  datatype Pc =
    | WaitGate
    | Entered
    | AwaitVersion(missing: bool, since: nat)
    | AwaitValue(seen: nat)
    | WaitTarget(seen: nat, payload: Payload)
    | Applying(seen: nat, payload: Payload, prior: Option<Content>)
    | NeedState(write: Write)
    | HasState(write: Write, next: State)
    | Saved(write: Write, next: State)
    | Logging(outcome: Outcome, observed: Option<nat>)
    | Done(answer: Outcome, observed: Option<nat>)

  datatype Task = Task(binding: string, kind: Kind, pc: Pc)

  /** `save_config`: wait for the tasks, invalidate, reload the state, write the config, swap the engine. */
  datatype Save = Quiet | Draining(config: Config) | Invalidated(config: Config) | Reloaded(config: Config) | Written(config: Config)

  /**
   * The whole system. `reached` and `under` record, for each binding, the release last written to its target and the
   * definition under which its `applied` entry on disk was made; no step reads them. The identities in `solo` are
   * those that at most one binding ever uses.
   */
  datatype World = World(
    config: Config, configOnDisk: Config,
    mem: State, disk: State,
    mutex: Option<nat>, gates: map<string, nat>, targetGates: map<Identity, nat>,
    tasks: seq<Task>, save: Save,
    medium: Medium, targets: map<Identity, Content>,
    timeline: map<string, seq<Release>>,
    reached: map<string, nat>, under: map<string, Binding>, solo: set<Identity>)

  datatype Event =
    | Publish(source: string, release: Release)
    | DeleteFile(path: string)
    | Start(binding: string, kind: Kind)
    | Cancel(t: nat)
    | Crash
    | SaveBegin(config: Config)
    | SaveStep(ok: bool)
    | TaskStep(t: nat, ok: bool, i: nat)

  function Timeline(w: World, source: string): seq<Release> {
    if source in w.timeline then w.timeline[source] else []
  }

  /** `is_missing`: only files can be missing. */
  predicate IsMissing(w: World, spec: TargetSpec) {
    IdentityOf(spec).File? && IdentityOf(spec) !in w.targets
  }

  // ---- what a task holds ----

  predicate HoldsGate(pc: Pc) { !pc.WaitGate? && !pc.Done? }

  predicate HoldsTarget(pc: Pc) {
    pc.Applying? || ((pc.NeedState? || pc.HasState? || pc.Saved?) && pc.write.RecordApplied?)
  }

  predicate HoldsState(pc: Pc) { pc.HasState? || pc.Saved? }

  /** The points at which an aborted task stops: it waits, and has not touched its target. */
  predicate AtAwait(pc: Pc) { pc.WaitGate? || pc.AwaitVersion? || pc.AwaitValue? || pc.WaitTarget? }

  // ---- one task ----

  function BindingOf(w: World, t: nat): Binding
    requires t < |w.tasks| && w.tasks[t].binding in w.config
  {
    w.config[w.tasks[t].binding]
  }

  function Status(outcome: Outcome): Pc { NeedState(RecordStatus(outcome, None)) }

  /** The next state that an update computes under the mutex, or nothing if it is refused. */
  function NextState(s: State, id: string, line: seq<Release>, write: Write): Option<State> {
    match write
    case RecordApplied(seen) =>
      if seen < |line| then Some(s.(applied := s.applied[id := line[seen].version])) else None
    case RecordStatus(outcome, _) =>
      Some(s.(status := s.status[id := outcome], disabled := if outcome == Disabled then s.disabled + {id} else s.disabled))
    case RecordEnable => if id in s.disabled then Some(s.(disabled := s.disabled - {id})) else None
    case RecordAcknowledge =>
      if id in s.status && s.status[id] == RestartRequired then Some(s.(status := s.status[id := Unchanged])) else None
  }

  /** When a task can move; `ok` and `i` choose what the outside answers. */
  predicate Ready(w: World, t: nat, ok: bool, i: nat) {
    && t < |w.tasks| && w.tasks[t].binding in w.config
    && var b := w.config[w.tasks[t].binding];
       match w.tasks[t].pc
       case WaitGate => w.tasks[t].binding !in w.gates
       case Entered => w.mutex == None
       case AwaitVersion(_, since) =>
         w.mutex == None && (ok ==> since <= i + 1 && i < |Timeline(w, b.source)|)
       case AwaitValue(seen) => seen < |Timeline(w, b.source)|
       case WaitTarget(_, _) => IdentityOf(b.target) !in w.targetGates
       case Applying(_, _, _) => true
       case NeedState(_) => w.mutex == None
       case HasState(_, _) => true
       case Saved(_, _) => true
       case Logging(_, _) => true
       case Done(_, _) => false
  }

  /** The first steps under the gate: for a sync the disabled check, validation and the missing-target policy. */
  function EnterPc(w: World, t: nat, ok: bool): Pc
    requires Ready(w, t, ok, 0)
  {
    var b := BindingOf(w, t);
    match w.tasks[t].kind
    case Enable => NeedState(RecordEnable)
    case Acknowledge => if b.target.DockerInput? then NeedState(RecordAcknowledge) else Done(Failed(InvalidConfig), None)
    case Sync =>
      if w.tasks[t].binding in w.mem.disabled then Done(Disabled, None)
      else if !ok then Status(Failed(Target))
      else if IsMissing(w, b.target) && b.missing == Alert then Status(Failed(Target))
      else if IsMissing(w, b.target) && b.missing == Disable then Status(Disabled)
      else AwaitVersion(IsMissing(w, b.target), |Timeline(w, b.source)|)
  }

  /** The version has been answered: compare it with what is recorded as applied. */
  function ComparePc(s: State, id: string, b: Binding, missing: bool, version: string, i: nat): Pc {
    if !SafeVersion(version) then Status(Failed(VersionConflict))
    else if !missing && id in s.applied && s.applied[id] == version then
      var pending := b.target.DockerInput? && id in s.status && s.status[id] == RestartRequired;
      NeedState(RecordStatus(if pending then RestartRequired else Unchanged, Some(i)))
    else AwaitValue(i)
  }

  function FetchPc(b: Binding, payload: Payload, seen: nat, ok: bool): Pc {
    if !ok then Status(Failed(Source))
    else if payload.kind != b.kind then Status(Failed(VersionConflict))
    else WaitTarget(seen, payload)
  }

  /** An apply fails by itself, because the file is not there and must not be created, or for what the file holds. */
  predicate ApplySucceeds(medium: Medium, b: Binding, prior: Option<Content>, payload: Payload, ok: bool) {
    && ok && (prior.Some? || !IdentityOf(b.target).File? || b.missing == Recreate)
    && medium.render(b.target, prior, payload).Some?
  }

  /** After the state file was replaced. */
  function PublishedPc(b: Binding, write: Write): Pc {
    match write
    case RecordApplied(seen) =>
      NeedState(RecordStatus(if b.target.DockerInput? then RestartRequired else Applied, Some(seen)))
    case RecordStatus(outcome, observed) => Logging(outcome, observed)
    case RecordEnable => Logging(Unchanged, None)
    case RecordAcknowledge => Logging(Unchanged, None)
  }

  function NextPc(w: World, t: nat, ok: bool, i: nat): Pc
    requires Ready(w, t, ok, i)
  {
    var id, b := w.tasks[t].binding, BindingOf(w, t);
    var line := Timeline(w, b.source);
    match w.tasks[t].pc
    case WaitGate => Entered
    case Entered => EnterPc(w, t, ok)
    case AwaitVersion(missing, _) =>
      if ok then ComparePc(w.mem, id, b, missing, line[i].version, i) else Status(Failed(Source))
    case AwaitValue(seen) => FetchPc(b, line[seen].payload, seen, ok)
    case WaitTarget(seen, payload) =>
      Applying(seen, payload, if IdentityOf(b.target) in w.targets then Some(w.targets[IdentityOf(b.target)]) else None)
    case Applying(seen, payload, prior) =>
      if ApplySucceeds(w.medium, b, prior, payload, ok) then NeedState(RecordApplied(seen)) else Status(Failed(Target))
    case NeedState(write) =>
      (match NextState(w.mem, id, line, write)
       case Some(next) => HasState(write, next)
       case None => Done(Failed(InvalidConfig), None))
    case HasState(write, next) =>
      if ok then Saved(write, next)
      else if write.RecordApplied? then Status(Failed(StateError))
      else Done(Failed(StateError), None)
    case Saved(write, _) => PublishedPc(b, write)
    case Logging(outcome, observed) => if ok then Done(outcome, observed) else Done(Failed(StateError), None)
  }

  /**
   * Moves a task to its next point. Gates and mutex are guards with a scope: taken on entering it, released on
   * leaving it by any way out.
   */
  function Goto(w: World, t: nat, pc: Pc): World
    requires t < |w.tasks| && w.tasks[t].binding in w.config
  {
    var id, target, before := w.tasks[t].binding, IdentityOf(BindingOf(w, t).target), w.tasks[t].pc;
    w.(tasks := w.tasks[t := w.tasks[t].(pc := pc)],
       gates := if HoldsGate(pc) then w.gates[id := t] else if HoldsGate(before) then w.gates - {id} else w.gates,
       targetGates :=
         if HoldsTarget(pc) then w.targetGates[target := t]
         else if HoldsTarget(before) then w.targetGates - {target}
         else w.targetGates,
       mutex := if HoldsState(pc) then Some(t) else if HoldsState(before) then None else w.mutex)
  }

  /** What the step writes: the target, the state file (replaced whole or not at all), or the state in memory. */
  function Advance(w: World, t: nat, ok: bool, i: nat): World
    requires Ready(w, t, ok, i)
  {
    var id, b := w.tasks[t].binding, BindingOf(w, t);
    var v := Goto(w, t, NextPc(w, t, ok, i));
    match w.tasks[t].pc
    case Applying(seen, payload, prior) =>
      if ApplySucceeds(w.medium, b, prior, payload, ok) then
        v.(targets := w.targets[IdentityOf(b.target) := w.medium.render(b.target, prior, payload).value], reached := w.reached[id := seen])
      else v
    case HasState(write, next) =>
      if ok then v.(disk := next, under := if write.RecordApplied? then w.under[id := b] else w.under) else v
    case Saved(_, next) => v.(mem := next)
    case _ => v
  }

  predicate AllDone(w: World) {
    forall t | 0 <= t < |w.tasks| :: w.tasks[t].pc.Done?
  }

  /** The ids whose definition differs between two configurations. */
  predicate Changed(before: Config, after: Config, id: string) {
    (id in before || id in after) && !(id in before && id in after && before[id] == after[id])
  }

  function Invalidate(s: State, before: Config, after: Config): State {
    State(
      map id | id in s.applied && !Changed(before, after, id) :: s.applied[id],
      map id | id in s.status && !Changed(before, after, id) :: s.status[id],
      set id | id in s.disabled && !Changed(before, after, id))
  }

  function KeepUnchanged(reached: map<string, nat>, before: Config, after: Config): map<string, nat> {
    map id | id in reached && !Changed(before, after, id) :: reached[id]
  }

  predicate Enabled(w: World, e: Event) {
    match e
    case Publish(_, _) => true
    case DeleteFile(_) => true
    case Start(id, _) => w.save == Quiet && id in w.config
    case Cancel(t) => t < |w.tasks| && w.tasks[t].binding in w.config && AtAwait(w.tasks[t].pc)
    case Crash => true
    case SaveBegin(_) => w.save == Quiet
    case SaveStep(_) => !w.save.Quiet? && AllDone(w)
    case TaskStep(t, ok, i) => Ready(w, t, ok, i)
  }

  /** A failed part of `save_config` goes back to the engine that was running. */
  function NextSave(save: Save, ok: bool): Save {
    match save
    case Quiet => Quiet
    case Draining(c) => if ok then Invalidated(c) else Quiet
    case Invalidated(c) => if ok then Reloaded(c) else Quiet
    case Reloaded(c) => if ok then Written(c) else Quiet
    case Written(_) => Quiet
  }

  /** Draining ends with the write of the invalidated state, reloading with the write of the configuration file. */
  function SaveConfig(w: World, ok: bool): World
    requires Enabled(w, SaveStep(ok))
  {
    var next := w.save.config;
    var disk := if w.save.Draining? && ok then Invalidate(w.mem, w.config, next) else w.disk;
    w.(disk := disk,
       mem := if (w.save.Draining? && ok) || w.save.Written? then disk else w.mem,
       configOnDisk := if w.save.Reloaded? && ok then next else w.configOnDisk,
       config := if w.save.Written? then next else w.config,
       reached := if w.save.Written? then KeepUnchanged(w.reached, w.config, next) else w.reached,
       save := NextSave(w.save, ok))
  }

  function Step(w: World, e: Event): World
    requires Enabled(w, e)
  {
    match e
    case Publish(source, release) => w.(timeline := w.timeline[source := Timeline(w, source) + [release]])
    case DeleteFile(path) => w.(targets := w.targets - {File(path)})
    case Start(id, kind) => w.(tasks := w.tasks + [Task(id, kind, WaitGate)])
    case Cancel(t) => Goto(w, t, Done(Failed(StateError), None))
    case Crash =>
      w.(tasks := [], mutex := None, gates := map[], targetGates := map[], save := Quiet,
         config := w.configOnDisk, mem := w.disk, reached := KeepUnchanged(w.reached, w.config, w.configOnDisk))
    case SaveBegin(config) => w.(save := Draining(config))
    case SaveStep(ok) => SaveConfig(w, ok)
    case TaskStep(t, ok, i) => Advance(w, t, ok, i)
  }

  ghost predicate Run(w: World, events: seq<Event>)
    decreases |events|
  {
    events != [] ==> Enabled(w, events[0]) && Run(Step(w, events[0]), events[1..])
  }

  ghost function After(w: World, events: seq<Event>): World
    requires Run(w, events)
    decreases |events|
  {
    if events == [] then w else After(Step(w, events[0]), events[1..])
  }

  /** A process that has just started on a state and a configuration that were written by nobody yet. */
  ghost predicate Init(w: World) {
    && w.configOnDisk == w.config && w.mem == w.disk && w.mem.applied == map[] && w.mem.status == map[] && w.mem.disabled == {}
    && w.mutex == None && w.gates == map[] && w.targetGates == map[] && w.tasks == [] && w.save == Quiet
    && w.reached == map[] && w.under == map[]
  }
}
