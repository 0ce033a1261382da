/**
 * The mutable parts of the engine as objects: the state mirrored to its file, and the saving of a new configuration.
 * The steps of `Engine` that update the state are the methods here, run under the mutex.
 */
module EngineObjects {
  import opened Basics
  import E = Engine
  import R = EngineRecords

  datatype SaveError = Busy | Rejected | ChangedElsewhere | StatusNotUpdated | StateUnreadable | NotSaved

  /** A file that `atomic_json` or `write_config` replaces as a whole or not at all; `faults` counts failed calls. */
  class Replaceable<T> {
    var content: T
    ghost var faults: nat

    constructor (content: T)
      ensures this.content == content
    {
      this.content, this.faults := content, 0;
    }

    method Replace(next: T) returns (ok: bool)
      modifies this
      ensures content == if ok then next else old(content)
      ensures faults == old(faults) + if ok then 0 else 1
    {
      ok := *;
      if ok {
        content := next;
      } else {
        faults := faults + 1;
      }
    }

    method CanRead() returns (ok: bool)
      modifies this`faults
      ensures faults == old(faults) + if ok then 0 else 1
    {
      ok := *;
      if !ok {
        faults := faults + 1;
      }
    }
  }

  ghost function Elements(ids: seq<string>): set<string> { set id | id in ids }

  lemma OneMoreElement(ids: seq<string>, i: nat)
    requires i < |ids|
    ensures Elements(ids[..i + 1]) == Elements(ids[..i]) + {ids[i]}
  {
    assert ids[..i + 1] == ids[..i] + [ids[i]];
  }

  /** A state without any record of some ids. */
  function Without(s: E.State, ids: set<string>): E.State {
    E.State(s.applied - ids, s.status - ids, s.disabled - ids)
  }

  /** Invalidating the ids whose definition changes is what the configuration step of the engine does to the state. */
  lemma WithoutChanged(s: E.State, before: E.Config, after: E.Config, ids: set<string>)
    requires forall id :: id in ids <==> E.Changed(before, after, id)
    ensures Without(s, ids) == E.Invalidate(s, before, after)
  {
  }

  /** What an update does to the state: the next state if it is answered with success, nothing otherwise. */
  ghost predicate Updates(before: E.State, after: E.State, id: string, line: seq<E.Release>, write: E.Write, ok: bool) {
    if ok then E.NextState(before, id, line, write) == Some(after) else after == before
  }

  class Engine {
    const config: E.Config
    const file: Replaceable<E.State>
    var state: E.State

    /** Outside the mutex the state in memory is the one in the file. */
    ghost predicate Mirrored()
      reads this, file
    {
      state == file.content
    }

    constructor (config: E.Config, file: Replaceable<E.State>)
      ensures this.config == config && this.file == file && Mirrored()
    {
      this.config, this.file, this.state := config, file, file.content;
    }

    /** A state update under the mutex: computed, written, and only then visible in memory. */
    method Update(id: string, line: seq<E.Release>, write: E.Write) returns (ok: bool)
      requires Mirrored()
      modifies this, file
      ensures Mirrored()
      ensures Updates(old(state), state, id, line, write, ok)
      ensures old(file.faults) <= file.faults
      ensures ok <==> E.NextState(old(state), id, line, write).Some? && file.faults == old(file.faults)
    {
      var next := E.NextState(state, id, line, write);
      if next.None? {
        return false;
      }
      ok := file.Replace(next.value);
      if ok {
        state := next.value;
      }
    }

    /** `invalidate_bindings`: all the ids are forgotten, or none. */
    method InvalidateBindings(ids: seq<string>) returns (ok: bool)
      requires Mirrored()
      modifies this, file
      ensures Mirrored()
      ensures state == if ok then Without(old(state), Elements(ids)) else old(state)
      ensures file.faults == old(file.faults) + if ok then 0 else 1
    {
      var next := state;
      for i := 0 to |ids|
        modifies {}
        invariant next == Without(state, Elements(ids[..i]))
      {
        var id := ids[i];
        OneMoreElement(ids, i);
        next := E.State(next.applied - {id}, next.status - {id}, next.disabled - {id});
      }
      assert ids[..|ids|] == ids;
      ok := file.Replace(next);
      if ok {
        state := next;
      }
    }
  }

  /** The background task that syncs one binding of one engine again and again. */
  class Schedule {
    const engine: Engine
    const binding: string
    var running: bool

    constructor (engine: Engine, binding: string)
      ensures this.engine == engine && this.binding == binding && running
    {
      this.engine, this.binding, this.running := engine, binding, true;
    }

    /** Aborts the task and waits until it has ended. */
    method Stop()
      modifies this
      ensures !running
    {
      running := false;
    }
  }

  ghost function Named(schedules: seq<Schedule>): set<string> { set s | s in schedules :: s.binding }

  lemma NamedMore(schedules: seq<Schedule>, more: Schedule)
    ensures Named(schedules + [more]) == Named(schedules) + {more.binding}
    ensures forall i | 0 <= i < |schedules| :: schedules[i].binding in Named(schedules)
  {
    assert forall s | s in schedules :: s in schedules + [more] && s.binding in Named(schedules);
    assert more in schedules + [more];
  }

  /** Which of the three fallible parts of saving a configuration succeed; a part is reached if those before it do. */
  datatype Parts = Parts(invalidated: bool, reloaded: bool, written: bool)

  predicate Complete(parts: Parts) { parts.invalidated && parts.reloaded && parts.written }

  /** The state, the configuration that runs and the configuration in its file. */
  datatype Snapshot = Snapshot(state: E.State, running: E.Config, stored: E.Config)

  function AfterSave(before: Snapshot, next: E.Config, parts: Parts): Snapshot {
    var state := if parts.invalidated then E.Invalidate(before.state, before.running, next) else before.state;
    if Complete(parts) then Snapshot(state, next, next) else before.(state := state)
  }

  /** Every id on record has the same definition in the configuration under which it was recorded and in the file. */
  predicate InStep(recorded: E.Config, state: E.State, stored: E.Config) {
    && (forall id | id in state.applied :: !E.Changed(recorded, stored, id))
    && (forall id | id in state.status :: !E.Changed(recorded, stored, id))
    && (forall id | id in state.disabled :: !E.Changed(recorded, stored, id))
  }

  /** The window that edits the configuration: the running engine, its schedules, and the file the configuration is from. */
  class Desktop {
    const configFile: Replaceable<E.Config>
    var engine: Engine
    var known: E.Config
    var schedules: seq<Schedule>
    var syncing: bool

    /** One running schedule of the running engine for each of these bindings. */
    ghost predicate ScheduledFor(ids: set<string>)
      reads this, schedules
    {
      && (forall s | s in schedules :: s.running && s.engine == engine)
      && (forall i, j | 0 <= i < j < |schedules| :: schedules[i].binding != schedules[j].binding)
      && Named(schedules) == ids
    }

    /** One for each binding of the running engine, and none for any other engine. */
    ghost predicate Scheduled()
      reads this, engine, schedules
    {
      ScheduledFor(engine.config.Keys)
    }

    ghost predicate Valid()
      reads this, engine, engine.file, schedules
    {
      engine.Mirrored() && engine.config == known && Scheduled()
    }

    function Now(): Snapshot
      reads this, engine, configFile
    {
      Snapshot(engine.state, engine.config, configFile.content)
    }

    constructor (configFile: Replaceable<E.Config>, file: Replaceable<E.State>)
      ensures Valid() && this.configFile == configFile && engine.file == file && known == configFile.content
      ensures fresh(engine) && forall s | s in schedules :: fresh(s)
    {
      this.configFile := configFile;
      this.known := configFile.content;
      this.engine := new Engine(configFile.content, file);
      this.schedules := [];
      this.syncing := false;
      new;
      SpawnSchedules();
    }

    /** The ids whose definitions differ, in some order. */
    method ChangedIds(next: E.Config) returns (ids: seq<string>)
      ensures forall id :: id in ids <==> E.Changed(engine.config, next, id)
      ensures forall id :: id in ids <==> (id in engine.config || id in next) && !R.Untouched(engine.config, next, id)
    {
      ids := [];
      var rest := engine.config.Keys + next.Keys;
      while rest != {}
        invariant rest <= engine.config.Keys + next.Keys
        invariant forall id :: id in ids <==> id !in rest && E.Changed(engine.config, next, id)
        decreases |rest|
      {
        var id :| id in rest;
        rest := rest - {id};
        if E.Changed(engine.config, next, id) {
          ids := ids + [id];
        }
      }
    }

    /** Every schedule is stopped before the next is touched, and none stays listed. */
    method DrainSchedules()
      modifies this`schedules, schedules
      ensures schedules == [] && forall s | s in old(schedules) :: !s.running
    {
      ghost var all := schedules;
      while schedules != []
        invariant forall s | s in schedules :: s in all
        invariant forall s | s in all :: s in schedules || !s.running
        decreases |schedules|
      {
        var task := schedules[0];
        assert task in schedules;
        schedules := schedules[1..];
        task.Stop();
      }
    }

    /** Every binding but these has its schedule. */
    ghost predicate ScheduledBut(rest: set<string>)
      reads this, engine, schedules
    {
      rest <= engine.config.Keys && ScheduledFor(engine.config.Keys - rest)
    }

    method SpawnOne(id: string, ghost rest: set<string>)
      requires ScheduledBut(rest) && id in rest
      modifies this`schedules
      ensures ScheduledBut(rest - {id})
      ensures forall s | s in schedules :: s in old(schedules) || fresh(s)
    {
      var task := new Schedule(engine, id);
      NamedMore(schedules, task);
      assert engine.config.Keys - (rest - {id}) == engine.config.Keys - rest + {id};
      schedules := schedules + [task];
    }

    method SpawnSchedules()
      requires schedules == []
      modifies this`schedules
      ensures Scheduled() && forall s | s in schedules :: fresh(s)
    {
      var rest := engine.config.Keys;
      assert engine.config.Keys - rest == {} == Named([]);
      while rest != {}
        invariant ScheduledBut(rest) && forall s | s in schedules :: fresh(s)
        decreases |rest|
      {
        var id :| id in rest;
        SpawnOne(id, rest);
        rest := rest - {id};
      }
      assert engine.config.Keys - {} == engine.config.Keys;
    }

    /**
     * The parts of `save_config` behind its checks, with the schedules drained. `moments` are the two files after
     * each part: at none of them does the state file mention an id that was recorded under a definition other than
     * the one in the configuration file.
     */
    method Exchange(next: E.Config) returns (r: Result<(), SaveError>, ghost parts: Parts, ghost moments: seq<(E.State, E.Config)>)
      requires engine.Mirrored() && engine.config == known == configFile.content
      modifies this`engine, this`known, engine, engine.file, configFile
      ensures engine.Mirrored() && engine.config == known == configFile.content && engine.file == old(engine.file)
      ensures Now() == AfterSave(old(Now()), next, parts)
      ensures r == (if !parts.invalidated then Err(StatusNotUpdated) else if !parts.reloaded then Err(StateUnreadable)
                    else if !parts.written then Err(NotSaved) else Ok(()))
      ensures if r.Ok? then fresh(engine) else engine == old(engine)
      ensures old(engine.file.faults) <= engine.file.faults && old(configFile.faults) <= configFile.faults
      ensures r.Ok? <==> engine.file.faults == old(engine.file.faults) && configFile.faults == old(configFile.faults)
      ensures forall m | m in moments :: InStep(old(engine.config), m.0, m.1)
      ensures moments != [] && moments[|moments| - 1] == (engine.file.content, configFile.content)
    {
      parts := Parts(false, false, false);
      moments := [(engine.file.content, configFile.content)];
      var changed := ChangedIds(next);
      WithoutChanged(engine.state, engine.config, next, Elements(changed));
      var invalidated := engine.InvalidateBindings(changed);
      moments := moments + [(engine.file.content, configFile.content)];
      if !invalidated {
        return Err(StatusNotUpdated), parts, moments;
      }
      parts := Parts(true, false, false);
      var readable := engine.file.CanRead();
      if !readable {
        return Err(StateUnreadable), parts, moments;
      }
      parts := Parts(true, true, false);
      var replacement := new Engine(next, engine.file);
      var written := configFile.Replace(next);
      moments := moments + [(engine.file.content, configFile.content)];
      if !written {
        return Err(NotSaved), parts, moments;
      }
      parts := Parts(true, true, true);
      known := next;
      engine := replacement;
      r := Ok(());
    }

    /**
     * `save_config`: success leaves a new engine on the new configuration; a failure leaves the old engine, with its
     * state as it was or, when only the later parts failed, without the redefined ids. On every way out each binding
     * of the running engine has one running schedule, and once the checks are passed every earlier schedule has ended.
     * The records of bindings that keep their definitions survive on every way out.
     */
    method SaveConfig(next: E.Config, valid: bool) returns (r: Result<(), SaveError>, ghost parts: Parts, ghost moments: seq<(E.State, E.Config)>)
      requires Valid()
      modifies this, engine, engine.file, configFile, schedules
      ensures Valid() && engine.file == old(engine.file)
      ensures r.Err? && r.error in {Busy, Rejected, ChangedElsewhere} ==> Now() == old(Now()) && schedules == old(schedules)
      ensures old(syncing) <==> r == Err(Busy)
      ensures !old(syncing) && !valid <==> r == Err(Rejected)
      ensures !old(syncing) && valid && old(configFile.content) != old(known) <==> r == Err(ChangedElsewhere)
      ensures r.Err? && r.error !in {Busy, Rejected, ChangedElsewhere} ==>
                engine.file.faults != old(engine.file.faults) || configFile.faults != old(configFile.faults)
      ensures forall id | R.Untouched(old(engine.config), next, id) :: R.SameRecord(old(engine.state), engine.state, id)
      ensures parts.invalidated ==>
                forall id | (id in old(engine.config) || id in next) && !R.Untouched(old(engine.config), next, id) ::
                  id !in engine.state.applied && id !in engine.state.status && id !in engine.state.disabled
      ensures r.Ok? || r.error !in {Busy, Rejected, ChangedElsewhere} ==>
                && Now() == AfterSave(old(Now()), next, parts) && (r.Ok? <==> Complete(parts))
                && (forall s | s in old(schedules) :: !s.running) && (forall s | s in schedules :: fresh(s))
                && (forall m | m in moments :: InStep(old(engine.config), m.0, m.1))
      ensures if r.Ok? then fresh(engine) else engine == old(engine)
    {
      parts, moments := Parts(false, false, false), [];
      if syncing {
        return Err(Busy), parts, moments;
      }
      if !valid {
        return Err(Rejected), parts, moments;
      }
      if configFile.content != known {
        return Err(ChangedElsewhere), parts, moments;
      }
      DrainSchedules();
      r, parts, moments := Exchange(next);
      forall id {
        AfterSaveRecords(old(Now()), next, parts, id);
      }
      SpawnSchedules();
    }
  }

  /** What a save leaves on record, said of the two configurations alone. */
  lemma AfterSaveRecords(before: Snapshot, next: E.Config, parts: Parts, id: string)
    ensures R.Untouched(before.running, next, id) ==> R.SameRecord(before.state, AfterSave(before, next, parts).state, id)
    ensures parts.invalidated && (id in before.running || id in next) && !R.Untouched(before.running, next, id) ==>
              var s := AfterSave(before, next, parts).state; id !in s.applied && id !in s.status && id !in s.disabled
  {
    if R.Untouched(before.running, next, id) {
      R.UntouchedStays(before.state, before.running, next, id);
    }
  }

  // ---- the methods and the steps of the engine's state machine ----

  lemma RunsOn(w: E.World, e: E.Event, events: seq<E.Event>)
    requires E.Enabled(w, e) && E.Run(E.Step(w, e), events)
    ensures E.Run(w, [e] + events) && E.After(w, [e] + events) == E.After(E.Step(w, e), events)
  {
    assert ([e] + events)[1..] == events;
  }

  function SnapshotOf(w: E.World): Snapshot { Snapshot(w.mem, w.config, w.configOnDisk) }

  /** The steps of a save with given parts: it stops at the first that fails. */
  function SaveSteps(parts: Parts): seq<E.Event> {
    [E.SaveStep(parts.invalidated)] +
    if !parts.invalidated then [] else
      [E.SaveStep(parts.reloaded)] +
      if !parts.reloaded then [] else
        [E.SaveStep(parts.written)] +
        if !parts.written then [] else [E.SaveStep(true)]
  }

  /** The last steps of a save, once the state file was read again. */
  lemma WriteSteps(w: E.World, written: bool)
    requires w.save.Reloaded? && E.AllDone(w) && w.mem == w.disk
    ensures var steps := [E.SaveStep(written)] + if !written then [] else [E.SaveStep(true)];
            && E.Run(w, steps)
            && var z := E.After(w, steps);
               && z.save == E.Quiet && z.mem == z.disk == w.mem && z.tasks == w.tasks
               && SnapshotOf(z) == if written then Snapshot(w.mem, w.save.config, w.save.config) else SnapshotOf(w)
  {
    var v := E.Step(w, E.SaveStep(written));
    if written {
      RunsOn(v, E.SaveStep(true), []);
      RunsOn(w, E.SaveStep(written), [E.SaveStep(true)]);
    } else {
      RunsOn(w, E.SaveStep(written), []);
    }
  }

  lemma ReloadSteps(w: E.World, reloaded: bool, written: bool)
    requires w.save.Invalidated? && E.AllDone(w) && w.mem == w.disk
    ensures var steps := [E.SaveStep(reloaded)] +
                         if !reloaded then [] else [E.SaveStep(written)] + if !written then [] else [E.SaveStep(true)];
            && E.Run(w, steps)
            && var z := E.After(w, steps);
               && z.save == E.Quiet && z.mem == z.disk == w.mem && z.tasks == w.tasks
               && SnapshotOf(z) == if reloaded && written then Snapshot(w.mem, w.save.config, w.save.config) else SnapshotOf(w)
  {
    var v := E.Step(w, E.SaveStep(reloaded));
    if reloaded {
      WriteSteps(v, written);
      RunsOn(w, E.SaveStep(reloaded), [E.SaveStep(written)] + if !written then [] else [E.SaveStep(true)]);
    } else {
      RunsOn(w, E.SaveStep(reloaded), []);
    }
  }

  /**
   * Whichever parts succeed, the steps of the state machine lead to the configuration, the configuration file and the
   * state that `SaveConfig` leaves.
   */
  lemma SaveIsItsSteps(w: E.World, next: E.Config, parts: Parts)
    requires w.save == E.Quiet && E.AllDone(w) && w.mem == w.disk
    ensures var steps := [E.SaveBegin(next)] + SaveSteps(parts);
            && E.Run(w, steps)
            && var z := E.After(w, steps);
               && z.save == E.Quiet && z.mem == z.disk && z.tasks == w.tasks
               && SnapshotOf(z) == AfterSave(SnapshotOf(w), next, parts)
  {
    var v := E.Step(w, E.SaveBegin(next));
    var rest := SaveSteps(parts)[1..];
    assert SaveSteps(parts) == [E.SaveStep(parts.invalidated)] + rest;
    var u := E.Step(v, E.SaveStep(parts.invalidated));
    if parts.invalidated {
      ReloadSteps(u, parts.reloaded, parts.written);
    }
    RunsOn(v, E.SaveStep(parts.invalidated), rest);
    RunsOn(w, E.SaveBegin(next), SaveSteps(parts));
  }

  /** The state that the update a task asks for would lead to, if it is not refused. */
  ghost function Asked(w: E.World, t: nat): Option<E.State>
    requires t < |w.tasks| && w.tasks[t].binding in w.config && w.tasks[t].pc.NeedState?
  {
    E.NextState(w.mem, w.tasks[t].binding, E.Timeline(w, E.BindingOf(w, t).source), w.tasks[t].pc.write)
  }

  /** Where a task goes when the write of its update fails. */
  function FailedPc(write: E.Write): E.Pc {
    if write.RecordApplied? then E.Status(E.Failed(E.StateError)) else E.Done(E.Failed(E.StateError), None)
  }

  lemma ComputeStep(w: E.World, t: nat) returns (v: E.World)
    requires t < |w.tasks| && w.tasks[t].binding in w.config && w.tasks[t].pc.NeedState? && w.mutex == None
    requires Asked(w, t).Some?
    ensures E.Enabled(w, E.TaskStep(t, true, 0)) && v == E.Step(w, E.TaskStep(t, true, 0))
    ensures v.config == w.config && |v.tasks| == |w.tasks| && v.tasks[t].binding == w.tasks[t].binding
    ensures v.mem == w.mem && v.disk == w.disk
    ensures v.tasks[t].pc.HasState? && v.tasks[t].pc.write == w.tasks[t].pc.write
    ensures Some(v.tasks[t].pc.next) == Asked(w, t)
  {
    v := E.Step(w, E.TaskStep(t, true, 0));
  }

  lemma WriteStep(w: E.World, t: nat) returns (v: E.World)
    requires t < |w.tasks| && w.tasks[t].binding in w.config && w.tasks[t].pc.HasState?
    ensures E.Enabled(w, E.TaskStep(t, true, 0)) && v == E.Step(w, E.TaskStep(t, true, 0))
    ensures v.config == w.config && |v.tasks| == |w.tasks| && v.tasks[t].binding == w.tasks[t].binding
    ensures v.tasks[t].pc == E.Saved(w.tasks[t].pc.write, w.tasks[t].pc.next) && v.disk == w.tasks[t].pc.next
  {
    v := E.Step(w, E.TaskStep(t, true, 0));
  }

  lemma UnwrittenStep(w: E.World, t: nat)
    requires t < |w.tasks| && w.tasks[t].binding in w.config && w.tasks[t].pc.HasState?
    ensures E.Enabled(w, E.TaskStep(t, false, 0))
    ensures var v := E.Step(w, E.TaskStep(t, false, 0));
            && v.mem == w.mem && v.disk == w.disk && v.mutex == None
            && |v.tasks| == |w.tasks| && v.tasks[t].pc == FailedPc(w.tasks[t].pc.write)
  {
  }

  lemma PublishStep(w: E.World, t: nat)
    requires t < |w.tasks| && w.tasks[t].binding in w.config && w.tasks[t].pc.Saved?
    ensures var v := E.Step(w, E.TaskStep(t, true, 0));
            && v.mem == w.tasks[t].pc.next && v.disk == w.disk && v.mutex == None
            && |v.tasks| == |w.tasks| && v.tasks[t].pc == E.PublishedPc(E.BindingOf(w, t), w.tasks[t].pc.write)
  {
  }

  lemma WrittenUpdate(w: E.World, t: nat)
    requires t < |w.tasks| && w.tasks[t].binding in w.config && w.tasks[t].pc.NeedState? && w.mutex == None && Asked(w, t).Some?
    ensures var e := E.TaskStep(t, true, 0);
            && E.Run(w, [e, e, e])
            && var z := E.After(w, [e, e, e]);
               && Some(z.mem) == Some(z.disk) == Asked(w, t) && z.mutex == None && t < |z.tasks|
               && z.tasks[t].pc == E.PublishedPc(E.BindingOf(w, t), w.tasks[t].pc.write)
  {
    var e := E.TaskStep(t, true, 0);
    var w1 := ComputeStep(w, t);
    var w2 := WriteStep(w1, t);
    PublishStep(w2, t);
    RunsOn(w2, e, []);
    RunsOn(w1, e, [e]);
    RunsOn(w, e, [e, e]);
  }

  lemma UnwrittenUpdate(w: E.World, t: nat)
    requires t < |w.tasks| && w.tasks[t].binding in w.config && w.tasks[t].pc.NeedState? && w.mutex == None && Asked(w, t).Some?
    ensures var e, last := E.TaskStep(t, true, 0), E.TaskStep(t, false, 0);
            && E.Run(w, [e, last])
            && var z := E.After(w, [e, last]);
               && z.mem == w.mem && z.disk == w.disk && z.mutex == None && t < |z.tasks|
               && z.tasks[t].pc == FailedPc(w.tasks[t].pc.write)
  {
    var e, last := E.TaskStep(t, true, 0), E.TaskStep(t, false, 0);
    var w1 := ComputeStep(w, t);
    UnwrittenStep(w1, t);
    RunsOn(w1, last, []);
    RunsOn(w, e, [last]);
  }

  lemma RefusedUpdate(w: E.World, t: nat)
    requires t < |w.tasks| && w.tasks[t].binding in w.config && w.tasks[t].pc.NeedState? && w.mutex == None && Asked(w, t).None?
    ensures var e := E.TaskStep(t, true, 0);
            && E.Run(w, [e])
            && var z := E.After(w, [e]);
               && z.mem == w.mem && z.disk == w.disk && z.mutex == None && t < |z.tasks|
               && z.tasks[t].pc == E.Done(E.Failed(E.InvalidConfig), None)
  {
    RunsOn(w, E.TaskStep(t, true, 0), []);
  }

  /** The steps of an update: one if it is refused, two if its write fails, and a third that makes it visible. */
  ghost function UpdateSteps(w: E.World, t: nat, written: bool): seq<E.Event>
    requires t < |w.tasks| && w.tasks[t].binding in w.config && w.tasks[t].pc.NeedState?
  {
    var e := E.TaskStep(t, true, 0);
    if Asked(w, t).None? then [e] else if written then [e, e, e] else [e, E.TaskStep(t, false, 0)]
  }

  /**
   * An update by the steps of a task does what `Update` does, in each of its three outcomes: refused, its write
   * failed, or written and then visible.
   */
  lemma UpdateIsItsSteps(w: E.World, t: nat, written: bool)
    requires t < |w.tasks| && w.tasks[t].binding in w.config && w.tasks[t].pc.NeedState?
    requires w.mutex == None && w.mem == w.disk
    ensures E.Run(w, UpdateSteps(w, t, written))
    ensures var write, ok := w.tasks[t].pc.write, Asked(w, t).Some? && written;
            var z := E.After(w, UpdateSteps(w, t, written));
            && z.mem == z.disk && z.mutex == None && t < |z.tasks|
            && Updates(w.mem, z.mem, w.tasks[t].binding, E.Timeline(w, E.BindingOf(w, t).source), write, ok)
            && z.tasks[t].pc == (if ok then E.PublishedPc(E.BindingOf(w, t), write)
                                 else if Asked(w, t).None? then E.Done(E.Failed(E.InvalidConfig), None)
                                 else FailedPc(write))
  {
    if Asked(w, t).None? {
      RefusedUpdate(w, t);
    } else if written {
      WrittenUpdate(w, t);
    } else {
      UnwrittenUpdate(w, t);
    }
  }
}
