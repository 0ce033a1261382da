/** What a sync's answer says about its target, over whole runs with faults, cancellations and crashes. */
module EngineAgreement {
  import opened Basics
  import opened Targets
  import opened Engine
  import opened EngineLocks
  import EngineState

  // ---- assumptions about the outside ----

  predicate DistinctVersions(line: seq<Release>) {
    forall i, j | 0 <= i < j < |line| :: line[i].version != line[j].version
  }

  /**
   * Keys are as the validation of a configuration accepts them, every written place can be read back, bindings that
   * share an object have disjoint places in it, and the identities in `solo` have one binding at most.
   */
  ghost predicate Exclusive(c: Config, solo: set<Identity>) {
    && (forall a | a in c :: AcceptedKey(c[a].target) && Legible(c[a].target))
    && forall a, b | a in c && b in c && a != b && IdentityOf(c[a].target) == IdentityOf(c[b].target) ::
         Disjoint(PlaceOf(c[a].target), PlaceOf(c[b].target)) && IdentityOf(c[a].target) !in solo
  }

  /** Some task past its binding gate works on this identity. */
  ghost predicate Busy(w: World, id: Identity) {
    exists t :: 0 <= t < |w.tasks| && HoldsGate(w.tasks[t].pc) && w.tasks[t].binding in w.config &&
                IdentityOf(w.config[w.tasks[t].binding].target) == id
  }

  /**
   * A superseded version never becomes current again, saved configurations do not share a place, and no other
   * program touches a target, except that it may delete a file of a single binding while that binding rests.
   */
  ghost predicate Assumed(w: World, e: Event) {
    match e
    case Publish(source, release) => forall r | r in Timeline(w, source) :: r.version != release.version
    case DeleteFile(path) => File(path) in w.solo && !Busy(w, File(path))
    case SaveBegin(c) => Exclusive(c, w.solo)
    case _ => true
  }

  ghost predicate BehavedRun(w: World, events: seq<Event>)
    decreases |events|
  {
    events != [] ==> Enabled(w, events[0]) && Assumed(w, events[0]) && BehavedRun(Step(w, events[0]), events[1..])
  }

  lemma {:induction false} BehavedIsRun(w: World, events: seq<Event>)
    requires BehavedRun(w, events)
    ensures Run(w, events)
    decreases |events|
  {
    if events != [] {
      BehavedIsRun(Step(w, events[0]), events[1..]);
    }
  }

  // ---- the invariant ----

  /** The binding's place in its target holds the payload of release `i` of its source. */
  predicate ContentIs(w: World, b: Binding, i: nat) {
    var line, id := Timeline(w, b.source), IdentityOf(b.target);
    i < |line| && id in w.targets && w.medium.holds(b.target, w.targets[id], line[i].payload)
  }

  predicate NotAhead(w: World, id: string, i: nat) { id in w.reached ==> w.reached[id] <= i }

  ghost predicate ReachedOk(w: World, id: string)
    requires id in w.reached
  {
    && id in w.config
    && var b := w.config[id];
       && w.reached[id] < |Timeline(w, b.source)|
       && (ContentIs(w, b, w.reached[id]) || (IsMissing(w, b.target) && IdentityOf(b.target) in w.solo))
  }

  /** The version is that of a release at place `upTo` or before. */
  ghost predicate Covers(line: seq<Release>, upTo: nat, version: string) {
    exists i :: 0 <= i <= upTo && i < |line| && line[i].version == version
  }

  /** Every recorded version names a release no later than the one the target has reached. */
  ghost predicate AppliedOk(w: World, applied: map<string, string>) {
    forall id | id in applied ::
      id in w.reached && id in w.config && Covers(Timeline(w, w.config[id].source), w.reached[id], applied[id])
  }

  predicate Agreeing(outcome: Outcome) { outcome == Unchanged || outcome == Applied || outcome == RestartRequired }

  ghost predicate ObservedOk(w: World, b: Binding, kind: Kind, outcome: Outcome, observed: Option<nat>) {
    && (kind.Sync? && Agreeing(outcome) ==> observed.Some?)
    && (observed.Some? ==> ContentIs(w, b, observed.value))
  }

  ghost predicate WriteOk(w: World, id: string, b: Binding, kind: Kind, write: Write) {
    match write
    case RecordApplied(seen) => kind.Sync? && id in w.reached && w.reached[id] == seen && ContentIs(w, b, seen)
    case RecordStatus(outcome, observed) => ObservedOk(w, b, kind, outcome, observed)
    case RecordEnable => !kind.Sync?
    case RecordAcknowledge => !kind.Sync?
  }

  ghost predicate PcOk(w: World, id: string, b: Binding, kind: Kind, pc: Pc) {
    var line := Timeline(w, b.source);
    match pc
    case WaitGate => true
    case Entered => true
    case AwaitVersion(missing, since) =>
      kind.Sync? && since <= |line| && (id in w.reached ==> w.reached[id] < since) && (!missing ==> !IsMissing(w, b.target))
    case AwaitValue(seen) => kind.Sync? && seen < |line| && NotAhead(w, id, seen)
    case WaitTarget(seen, payload) => kind.Sync? && seen < |line| && NotAhead(w, id, seen) && payload == line[seen].payload
    case Applying(seen, payload, prior) =>
      && kind.Sync? && seen < |line| && NotAhead(w, id, seen) && payload == line[seen].payload
      && prior == if IdentityOf(b.target) in w.targets then Some(w.targets[IdentityOf(b.target)]) else None
    case NeedState(write) => WriteOk(w, id, b, kind, write)
    case HasState(write, _) => WriteOk(w, id, b, kind, write)
    case Saved(write, _) => WriteOk(w, id, b, kind, write)
    case Logging(outcome, observed) => ObservedOk(w, b, kind, outcome, observed)
    case Done(_, _) => true
  }

  ghost predicate TaskOk(w: World, t: nat)
    requires t < |w.tasks|
  {
    !w.tasks[t].pc.Done? && w.tasks[t].binding in w.config ==>
      PcOk(w, w.tasks[t].binding, w.config[w.tasks[t].binding], w.tasks[t].kind, w.tasks[t].pc)
  }

  ghost predicate ConfigsOk(w: World) {
    Exclusive(w.config, w.solo) && Exclusive(w.configOnDisk, w.solo) && (!w.save.Quiet? ==> Exclusive(w.save.config, w.solo))
  }

  ghost predicate LinesOk(w: World) {
    forall source :: DistinctVersions(Timeline(w, source))
  }

  ghost predicate TargetsOk(w: World) {
    && (forall id | id in w.reached :: ReachedOk(w, id))
    && AppliedOk(w, w.mem.applied) && AppliedOk(w, w.disk.applied)
    && (forall t | 0 <= t < |w.tasks| :: TaskOk(w, t))
  }

  ghost predicate Inv(w: World) {
    EngineState.Inv(w) && Sound(w.medium) && ConfigsOk(w) && LinesOk(w) && TargetsOk(w)
  }

  // ---- one task step ----

  /** The comparison says "unchanged" only if the recorded version is the release the target has reached. */
  lemma EqualVersionIsReached(w: World, id: string, i: nat)
    requires LinesOk(w) && AppliedOk(w, w.mem.applied) && id in w.mem.applied && id in w.config && id in w.reached && ReachedOk(w, id)
    requires i < |Timeline(w, w.config[id].source)| && w.reached[id] <= i
    requires w.mem.applied[id] == Timeline(w, w.config[id].source)[i].version
    requires !IsMissing(w, w.config[id].target)
    ensures ContentIs(w, w.config[id], i)
  {
    var line := Timeline(w, w.config[id].source);
    assert DistinctVersions(line);
    var k :| 0 <= k <= w.reached[id] && k < |line| && line[k].version == w.mem.applied[id];
    assert k == i;
  }

  lemma ComparePcOk(w: World, t: nat, i: nat)
    requires Inv(w) && Ready(w, t, true, i) && w.tasks[t].pc.AwaitVersion?
    ensures PcOk(w, w.tasks[t].binding, BindingOf(w, t), w.tasks[t].kind, NextPc(w, t, true, i))
  {
    assert TaskOk(w, t);
    var id, b, missing := w.tasks[t].binding, BindingOf(w, t), w.tasks[t].pc.missing;
    var version := Timeline(w, b.source)[i].version;
    if SafeVersion(version) && !missing && id in w.mem.applied && w.mem.applied[id] == version {
      EqualVersionIsReached(w, id, i);
    }
  }

  lemma EnterPcOk(w: World, t: nat, ok: bool)
    requires Ready(w, t, ok, 0) && w.tasks[t].pc.Entered?
    requires w.tasks[t].binding in w.reached ==> w.reached[w.tasks[t].binding] < |Timeline(w, BindingOf(w, t).source)|
    ensures PcOk(w, w.tasks[t].binding, BindingOf(w, t), w.tasks[t].kind, EnterPc(w, t, ok))
  {
  }

  predicate Writes(w: World, t: nat, ok: bool)
    requires t < |w.tasks| && w.tasks[t].binding in w.config
  {
    w.tasks[t].pc.Applying? && ApplySucceeds(w.medium, BindingOf(w, t), w.tasks[t].pc.prior, w.tasks[t].pc.payload, ok)
  }

  lemma LaterPcOk(w: World, t: nat, ok: bool, i: nat)
    requires Ready(w, t, ok, i) && TaskOk(w, t) && !Writes(w, t, ok)
    requires !w.tasks[t].pc.Entered? && !w.tasks[t].pc.AwaitVersion?
    ensures PcOk(w, w.tasks[t].binding, BindingOf(w, t), w.tasks[t].kind, NextPc(w, t, ok, i))
  {
    match w.tasks[t].pc
    case NeedState(write) =>
    case HasState(write, _) =>
    case Saved(write, _) =>
    case _ =>
  }

  lemma NextPcOk(w: World, t: nat, ok: bool, i: nat)
    requires Inv(w) && Ready(w, t, ok, i) && !Writes(w, t, ok)
    ensures PcOk(w, w.tasks[t].binding, BindingOf(w, t), w.tasks[t].kind, NextPc(w, t, ok, i))
  {
    assert TaskOk(w, t);
    if w.tasks[t].pc.Entered? {
      assert w.tasks[t].binding in w.reached ==> ReachedOk(w, w.tasks[t].binding);
      EnterPcOk(w, t, ok);
    } else if w.tasks[t].pc.AwaitVersion? {
      if ok {
        ComparePcOk(w, t, i);
      }
    } else {
      LaterPcOk(w, t, ok, i);
    }
  }

  /** What the invariant of a program point depends on. */
  lemma PcOkFrame(w: World, v: World, id: string, b: Binding, kind: Kind, pc: Pc)
    requires v.medium == w.medium && v.targets == w.targets && v.reached == w.reached && v.timeline == w.timeline && PcOk(w, id, b, kind, pc)
    ensures PcOk(v, id, b, kind, pc)
  {
  }

  lemma NextAppliedOk(w: World, t: nat)
    requires AppliedOk(w, w.mem.applied) && t < |w.tasks| && EngineState.UpdateOk(w, t) && TaskOk(w, t)
    requires w.tasks[t].pc.HasState? || w.tasks[t].pc.Saved?
    ensures AppliedOk(w, w.tasks[t].pc.next.applied)
  {
    var id, pc := w.tasks[t].binding, w.tasks[t].pc;
    if pc.write.RecordApplied? {
      assert pc.next.applied == w.mem.applied[id := Timeline(w, w.config[id].source)[pc.write.seen].version];
    } else {
      assert pc.next.applied == w.mem.applied;
    }
  }

  /** A step that writes no target keeps what the targets, the records and the other tasks say. */
  lemma QuietMoveKeepsTargets(w: World, v: World, t: nat, pc: Pc)
    requires TargetsOk(w) && EngineState.StateOk(w) && t < |w.tasks| && w.tasks[t].binding in w.config
    requires EngineState.StateMove(w, v, t, pc)
    requires v.medium == w.medium && v.targets == w.targets && v.reached == w.reached && v.solo == w.solo
    requires PcOk(w, w.tasks[t].binding, BindingOf(w, t), w.tasks[t].kind, pc)
    ensures TargetsOk(v)
  {
    assert TaskOk(w, t) && EngineState.UpdateOk(w, t);
    if w.tasks[t].pc.HasState? || w.tasks[t].pc.Saved? {
      NextAppliedOk(w, t);
    }
    assert AppliedOk(w, v.mem.applied) && AppliedOk(w, v.disk.applied);
    AppliedFrame(w, v, v.mem.applied);
    AppliedFrame(w, v, v.disk.applied);
    forall id | id in v.reached ensures ReachedOk(v, id) {
      assert ReachedOk(w, id);
    }
    forall u | 0 <= u < |v.tasks| ensures TaskOk(v, u) {
      if u == t {
        PcOkFrame(w, v, w.tasks[t].binding, BindingOf(w, t), w.tasks[t].kind, pc);
      } else if !w.tasks[u].pc.Done? && w.tasks[u].binding in w.config {
        assert v.tasks[u] == w.tasks[u] && TaskOk(w, u);
        PcOkFrame(w, v, w.tasks[u].binding, w.config[w.tasks[u].binding], w.tasks[u].kind, w.tasks[u].pc);
      }
    }
  }

  lemma AppliedFrame(w: World, v: World, applied: map<string, string>)
    requires v.reached == w.reached && v.timeline == w.timeline && v.config == w.config && AppliedOk(w, applied)
    ensures AppliedOk(v, applied)
  {
    assert forall source :: Timeline(v, source) == Timeline(w, source);
  }

  // ---- the step that writes a target ----

  ghost predicate WriteStep(w: World, v: World, t: nat)
    requires t < |w.tasks| && w.tasks[t].binding in w.config && w.tasks[t].pc.Applying?
  {
    var id, b, pc := w.tasks[t].binding, BindingOf(w, t), w.tasks[t].pc;
    && v.config == w.config && v.timeline == w.timeline && v.solo == w.solo && v.medium == w.medium
    && v.tasks == w.tasks[t := w.tasks[t].(pc := NeedState(RecordApplied(pc.seen)))]
    && v.reached == w.reached[id := pc.seen]
    && w.medium.render(b.target, pc.prior, pc.payload).Some?
    && v.targets == w.targets[IdentityOf(b.target) := w.medium.render(b.target, pc.prior, pc.payload).value]
    && v.mem == w.mem && v.disk == w.disk
  }

  /** Other places in the same file keep their content, because the gate made the prior content the current one. */
  lemma OtherContentKept(w: World, v: World, t: nat, other: string, i: nat)
    requires Sound(w.medium) && Exclusive(w.config, w.solo)
    requires t < |w.tasks| && w.tasks[t].binding in w.config && w.tasks[t].pc.Applying? && WriteStep(w, v, t) && TaskOk(w, t)
    requires other in w.config && other != w.tasks[t].binding && ContentIs(w, w.config[other], i)
    ensures ContentIs(v, w.config[other], i)
  {
    var b, c := BindingOf(w, t), w.config[other];
    if IdentityOf(b.target) == IdentityOf(c.target) {
      var prior := w.targets[IdentityOf(c.target)];
      assert w.tasks[t].pc.prior == Some(prior);
      MediumKeeps(w.medium, b.target, prior, w.tasks[t].pc.payload, c.target, Timeline(w, c.source)[i].payload);
    }
  }

  lemma OwnContentWritten(w: World, v: World, t: nat)
    requires Sound(w.medium) && Exclusive(w.config, w.solo)
    requires t < |w.tasks| && w.tasks[t].binding in w.config && w.tasks[t].pc.Applying? && WriteStep(w, v, t) && TaskOk(w, t)
    ensures ContentIs(v, BindingOf(w, t), w.tasks[t].pc.seen)
  {
    MediumWrites(w.medium, BindingOf(w, t).target, w.tasks[t].pc.prior, w.tasks[t].pc.payload);
  }

  lemma WriteKeepsReached(w: World, v: World, t: nat, id: string)
    requires Sound(w.medium) && Exclusive(w.config, w.solo)
    requires t < |w.tasks| && w.tasks[t].binding in w.config && w.tasks[t].pc.Applying? && WriteStep(w, v, t) && TaskOk(w, t)
    requires id in v.reached && (id in w.reached ==> ReachedOk(w, id))
    ensures ReachedOk(v, id)
  {
    if id == w.tasks[t].binding {
      OwnContentWritten(w, v, t);
    } else if ContentIs(w, w.config[id], w.reached[id]) {
      OtherContentKept(w, v, t, id, w.reached[id]);
    } else {
      assert IdentityOf(w.config[id].target) != IdentityOf(BindingOf(w, t).target);
    }
  }

  /** The gates keep two tasks past them on different bindings, and two that apply on different objects. */
  lemma WriterIsAlone(w: World, t: nat, u: nat)
    requires Locks(w) && t < |w.tasks| && w.tasks[t].binding in w.config && w.tasks[t].pc.Applying?
    requires u < |w.tasks| && u != t && HoldsGate(w.tasks[u].pc) && w.tasks[u].binding in w.config
    ensures w.tasks[u].binding != w.tasks[t].binding
    ensures w.tasks[u].pc.Applying? ==> IdentityOf(BindingOf(w, u).target) != IdentityOf(BindingOf(w, t).target)
  {
    assert HoldsGate(w.tasks[t].pc) && HoldsTarget(w.tasks[t].pc);
  }

  lemma WriteKeepsTask(w: World, v: World, t: nat, u: nat)
    requires Sound(w.medium) && Exclusive(w.config, w.solo)
    requires t < |w.tasks| && w.tasks[t].binding in w.config && w.tasks[t].pc.Applying? && WriteStep(w, v, t) && TaskOk(w, t)
    requires u < |w.tasks| && !w.tasks[u].pc.Done? && w.tasks[u].binding in w.config && TaskOk(w, u)
    requires w.tasks[u].pc.WaitGate? || w.tasks[u].binding != w.tasks[t].binding
    requires w.tasks[u].pc.Applying? ==> IdentityOf(BindingOf(w, u).target) != IdentityOf(BindingOf(w, t).target)
    ensures PcOk(v, w.tasks[u].binding, w.config[w.tasks[u].binding], w.tasks[u].kind, w.tasks[u].pc)
  {
    var other := w.tasks[u].binding;
    if !w.tasks[u].pc.WaitGate? {
      forall i | ContentIs(w, w.config[other], i) ensures ContentIs(v, w.config[other], i) {
        OtherContentKept(w, v, t, other, i);
      }
    }
  }

  lemma WriteKeepsApplied(w: World, v: World, t: nat, applied: map<string, string>)
    requires t < |w.tasks| && w.tasks[t].binding in w.config && w.tasks[t].pc.Applying? && WriteStep(w, v, t)
    requires TaskOk(w, t) && AppliedOk(w, applied)
    ensures AppliedOk(v, applied)
  {
    forall id | id in applied ensures Covers(Timeline(v, v.config[id].source), v.reached[id], applied[id]) {
      var line := Timeline(w, w.config[id].source);
      var i :| 0 <= i <= w.reached[id] && i < |line| && line[i].version == applied[id];
      assert w.reached[id] <= v.reached[id] && Timeline(v, v.config[id].source) == line;
    }
  }

  lemma WriteKeepsTasks(w: World, v: World, t: nat)
    requires Inv(w) && t < |w.tasks| && w.tasks[t].binding in w.config && w.tasks[t].pc.Applying? && WriteStep(w, v, t)
    ensures forall u | 0 <= u < |v.tasks| && u != t :: TaskOk(v, u)
  {
    assert TaskOk(w, t);
    forall u | 0 <= u < |v.tasks| && u != t ensures TaskOk(v, u) {
      if !w.tasks[u].pc.Done? && w.tasks[u].binding in w.config {
        assert TaskOk(w, u);
        if !w.tasks[u].pc.WaitGate? {
          WriterIsAlone(w, t, u);
        }
        WriteKeepsTask(w, v, t, u);
      }
    }
  }

  lemma WriteKeepsRecords(w: World, v: World, t: nat)
    requires Inv(w) && t < |w.tasks| && w.tasks[t].binding in w.config && w.tasks[t].pc.Applying? && WriteStep(w, v, t)
    ensures AppliedOk(v, v.mem.applied) && AppliedOk(v, v.disk.applied)
    ensures forall id | id in v.reached :: ReachedOk(v, id)
  {
    assert TaskOk(w, t);
    WriteKeepsApplied(w, v, t, w.mem.applied);
    WriteKeepsApplied(w, v, t, w.disk.applied);
    forall id | id in v.reached ensures ReachedOk(v, id) {
      assert id in w.reached ==> ReachedOk(w, id);
      WriteKeepsReached(w, v, t, id);
    }
  }

  lemma WriteKeepsTargets(w: World, v: World, t: nat)
    requires Inv(w) && t < |w.tasks| && w.tasks[t].binding in w.config && w.tasks[t].pc.Applying? && WriteStep(w, v, t)
    ensures TargetsOk(v)
  {
    WriteKeepsRecords(w, v, t);
    WriteKeepsTasks(w, v, t);
    assert TaskOk(v, t) by {
      assert TaskOk(w, t);
      OwnContentWritten(w, v, t);
    }
  }

  lemma AdvanceWrites(w: World, t: nat, ok: bool, i: nat)
    requires Ready(w, t, ok, i) && Writes(w, t, ok)
    ensures WriteStep(w, Advance(w, t, ok, i), t) && Advance(w, t, ok, i).solo == w.solo
    ensures Advance(w, t, ok, i).medium == w.medium
  {
    assert NextPc(w, t, ok, i) == NeedState(RecordApplied(w.tasks[t].pc.seen));
  }

  lemma AdvanceQuiet(w: World, t: nat, ok: bool, i: nat)
    requires Ready(w, t, ok, i) && !Writes(w, t, ok)
    ensures Advance(w, t, ok, i).targets == w.targets && Advance(w, t, ok, i).reached == w.reached
    ensures Advance(w, t, ok, i).solo == w.solo && Advance(w, t, ok, i).medium == w.medium
  {
  }

  lemma TaskStepKeepsInv(w: World, t: nat, ok: bool, i: nat)
    requires Inv(w) && Ready(w, t, ok, i)
    ensures Inv(Advance(w, t, ok, i))
  {
    EngineState.TaskStepKeepsInv(w, t, ok, i);
    EngineState.AdvanceStateMove(w, t, ok, i);
    if Writes(w, t, ok) {
      AdvanceWrites(w, t, ok, i);
    } else {
      AdvanceQuiet(w, t, ok, i);
    }
    StepKeepsRest(w, Advance(w, t, ok, i), t, ok, i);
  }

  lemma StepKeepsRest(w: World, v: World, t: nat, ok: bool, i: nat)
    requires Inv(w) && Ready(w, t, ok, i) && EngineState.Inv(v)
    requires EngineState.StateMove(w, v, t, NextPc(w, t, ok, i)) && v.solo == w.solo && v.medium == w.medium
    requires if Writes(w, t, ok) then WriteStep(w, v, t) else v.targets == w.targets && v.reached == w.reached
    ensures Inv(v)
  {
    if Writes(w, t, ok) {
      WriteKeepsTargets(w, v, t);
    } else {
      NextPcOk(w, t, ok, i);
      QuietMoveKeepsTargets(w, v, t, NextPc(w, t, ok, i));
    }
    assert forall source :: Timeline(v, source) == Timeline(w, source);
  }

  // ---- the other events ----

  ghost predicate Longer(w: World, v: World) {
    && v.medium == w.medium && v.targets == w.targets && v.reached == w.reached && v.config == w.config && v.solo == w.solo
    && forall other :: Timeline(w, other) <= Timeline(v, other)
  }

  lemma PcOkGrows(w: World, v: World, id: string, b: Binding, kind: Kind, pc: Pc)
    requires Longer(w, v) && PcOk(w, id, b, kind, pc)
    ensures PcOk(v, id, b, kind, pc)
  {
    assert Timeline(w, b.source) <= Timeline(v, b.source);
    assert forall i | ContentIs(w, b, i) :: ContentIs(v, b, i);
  }

  lemma GrowKeepsTargets(w: World, v: World)
    requires TargetsOk(w) && Longer(w, v) && v.tasks == w.tasks && v.mem == w.mem && v.disk == w.disk
    ensures TargetsOk(v)
  {
    forall id | id in v.reached ensures ReachedOk(v, id) {
      assert ReachedOk(w, id) && Timeline(w, w.config[id].source) <= Timeline(v, w.config[id].source);
    }
    AppliedGrows(w, v, w.mem.applied);
    AppliedGrows(w, v, w.disk.applied);
    forall u | 0 <= u < |v.tasks| ensures TaskOk(v, u) {
      assert TaskOk(w, u);
      var task := w.tasks[u];
      if !task.pc.Done? && task.binding in w.config {
        PcOkGrows(w, v, task.binding, w.config[task.binding], task.kind, task.pc);
      }
    }
  }

  lemma PublishKeepsLines(w: World, source: string, release: Release)
    requires LinesOk(w) && Assumed(w, Publish(source, release))
    ensures LinesOk(Step(w, Publish(source, release)))
  {
    var v := Step(w, Publish(source, release));
    forall other ensures DistinctVersions(Timeline(v, other)) {
      assert DistinctVersions(Timeline(w, other));
      if other == source {
        assert forall r | r in Timeline(w, source) :: r.version != release.version;
        assert forall i | 0 <= i < |Timeline(w, source)| :: Timeline(w, source)[i] in Timeline(w, source);
      }
    }
  }

  lemma AppliedGrows(w: World, v: World, applied: map<string, string>)
    requires v.reached == w.reached && v.config == w.config && AppliedOk(w, applied)
    requires forall other :: Timeline(w, other) <= Timeline(v, other)
    ensures AppliedOk(v, applied)
  {
    forall id | id in applied ensures Covers(Timeline(v, v.config[id].source), v.reached[id], applied[id]) {
      var line := Timeline(w, w.config[id].source);
      assert line <= Timeline(v, w.config[id].source);
      var i :| 0 <= i <= w.reached[id] && i < |line| && line[i].version == applied[id];
      assert Timeline(v, w.config[id].source)[i] == line[i];
    }
  }

  lemma PcOkElsewhere(w: World, v: World, path: string, id: string, b: Binding, kind: Kind, pc: Pc)
    requires PcOk(w, id, b, kind, pc) && (IdentityOf(b.target) != File(path) || pc.WaitGate?)
    requires v == w.(targets := w.targets - {File(path)})
    ensures PcOk(v, id, b, kind, pc)
  {
    assert forall i | ContentIs(w, b, i) && IdentityOf(b.target) != File(path) :: ContentIs(v, b, i);
  }

  lemma DeleteKeepsReached(w: World, v: World, path: string, id: string)
    requires id in w.reached && ReachedOk(w, id) && File(path) in w.solo && v == w.(targets := w.targets - {File(path)})
    ensures ReachedOk(v, id)
  {
  }

  lemma DeleteKeepsTask(w: World, path: string, u: nat)
    requires Inv(w) && Assumed(w, DeleteFile(path)) && u < |w.tasks|
    ensures TaskOk(Step(w, DeleteFile(path)), u)
  {
    assert TaskOk(w, u);
    var task := w.tasks[u];
    if !task.pc.Done? && task.binding in w.config {
      assert HoldsGate(task.pc) ==> IdentityOf(w.config[task.binding].target) != File(path);
      PcOkElsewhere(w, Step(w, DeleteFile(path)), path, task.binding, w.config[task.binding], task.kind, task.pc);
    }
  }

  lemma DeleteKeepsTargets(w: World, path: string)
    requires Inv(w) && Assumed(w, DeleteFile(path))
    ensures TargetsOk(Step(w, DeleteFile(path)))
  {
    var v := Step(w, DeleteFile(path));
    forall id | id in v.reached ensures ReachedOk(v, id) {
      DeleteKeepsReached(w, v, path, id);
    }
    AppliedFrame(w, v, w.mem.applied);
    AppliedFrame(w, v, w.disk.applied);
    forall u | 0 <= u < |v.tasks| ensures TaskOk(v, u) {
      DeleteKeepsTask(w, path, u);
    }
  }

  lemma TasksOnlyKeepsTargets(w: World, v: World)
    requires TargetsOk(w)
    requires v == w.(tasks := v.tasks, gates := v.gates, targetGates := v.targetGates, mutex := v.mutex, save := v.save)
    requires forall u | 0 <= u < |v.tasks| ::
               v.tasks[u].pc.Done? || v.tasks[u].pc.WaitGate? || (u < |w.tasks| && v.tasks[u] == w.tasks[u])
    ensures TargetsOk(v)
  {
    AppliedFrame(w, v, w.mem.applied);
    AppliedFrame(w, v, w.disk.applied);
    forall id | id in v.reached ensures ReachedOk(v, id) {
      assert ReachedOk(w, id);
    }
    forall u | 0 <= u < |v.tasks| ensures TaskOk(v, u) {
      assert u < |w.tasks| && v.tasks[u] == w.tasks[u] ==> TaskOk(w, u);
    }
  }

  /** The engine starts over, after a crash or a swap, under a configuration that kept the definition of every applied id. */
  lemma RestartKeepsTargets(w: World, v: World, after: Config)
    requires TargetsOk(w) && forall id | id in w.disk.applied :: !Changed(w.config, after, id)
    requires v.config == after && v.mem == w.disk && v.disk == w.disk && v.reached == KeepUnchanged(w.reached, w.config, after)
    requires v.medium == w.medium && v.targets == w.targets && v.timeline == w.timeline && v.solo == w.solo
    requires forall u | 0 <= u < |v.tasks| :: v.tasks[u].pc.Done?
    ensures TargetsOk(v)
  {
    assert forall source :: Timeline(v, source) == Timeline(w, source);
    forall id | id in v.reached ensures ReachedOk(v, id) {
      assert ReachedOk(w, id) && after[id] == w.config[id];
    }
    assert AppliedOk(v, v.disk.applied);
  }

  lemma CrashKeepsTargets(w: World)
    requires Inv(w)
    ensures TargetsOk(Step(w, Crash))
  {
    RestartKeepsTargets(w, Step(w, Crash), w.configOnDisk);
  }

  lemma FewerAppliedOk(w: World, v: World, applied: map<string, string>, fewer: map<string, string>)
    requires AppliedOk(w, applied) && (forall id | id in fewer :: id in applied && fewer[id] == applied[id])
    requires v.reached == w.reached && v.timeline == w.timeline && v.config == w.config
    ensures AppliedOk(v, fewer)
  {
    assert forall source :: Timeline(v, source) == Timeline(w, source);
  }

  lemma SaveKeepsTargets(w: World, ok: bool)
    requires Inv(w) && Enabled(w, SaveStep(ok))
    ensures TargetsOk(Step(w, SaveStep(ok)))
  {
    NothingHeld(w);
    if w.save.Written? {
      RestartKeepsTargets(w, SaveConfig(w, ok), w.save.config);
    } else if w.save.Draining? && ok {
      DrainKeepsTargets(w, SaveConfig(w, ok));
    } else {
      IdleFrame(w, SaveConfig(w, ok));
    }
  }

  lemma DrainKeepsTargets(w: World, v: World)
    requires TargetsOk(w) && Enabled(w, SaveStep(true)) && w.save.Draining? && v == SaveConfig(w, true)
    ensures TargetsOk(v)
  {
    EngineState.InvalidationRemovesChanged(w.mem, w.config, w.save.config);
    FewerAppliedOk(w, v, w.mem.applied, v.mem.applied);
    forall id | id in v.reached ensures ReachedOk(v, id) {
      assert ReachedOk(w, id);
    }
  }

  lemma IdleFrame(w: World, v: World)
    requires TargetsOk(w) && AllDone(w)
    requires v.config == w.config && v.mem == w.mem && v.disk == w.disk && v.reached == w.reached && v.tasks == w.tasks
    requires v.medium == w.medium && v.targets == w.targets && v.timeline == w.timeline && v.solo == w.solo
    ensures TargetsOk(v)
  {
    AppliedFrame(w, v, w.mem.applied);
    AppliedFrame(w, v, w.disk.applied);
    forall id | id in v.reached ensures ReachedOk(v, id) {
      assert ReachedOk(w, id);
    }
  }

  lemma StartOrCancelKeepsTargets(w: World, e: Event)
    requires TargetsOk(w) && Enabled(w, e) && (e.Start? || e.Cancel? || e.SaveBegin?)
    ensures TargetsOk(Step(w, e))
  {
    TasksOnlyKeepsTargets(w, Step(w, e));
  }

  lemma PublishKeepsTargets(w: World, source: string, release: Release)
    requires TargetsOk(w)
    ensures TargetsOk(Step(w, Publish(source, release)))
  {
    GrowKeepsTargets(w, Step(w, Publish(source, release)));
  }

  lemma OtherEventKeepsTargets(w: World, e: Event)
    requires Inv(w) && Enabled(w, e) && Assumed(w, e) && !e.TaskStep?
    ensures TargetsOk(Step(w, e))
  {
    match e
    case Publish(source, release) => PublishKeepsTargets(w, source, release);
    case DeleteFile(path) => DeleteKeepsTargets(w, path);
    case Crash => CrashKeepsTargets(w);
    case SaveStep(ok) => SaveKeepsTargets(w, ok);
    case _ => StartOrCancelKeepsTargets(w, e);
  }

  lemma SaveFrame(w: World, v: World, ok: bool)
    requires Enabled(w, SaveStep(ok)) && v == SaveConfig(w, ok)
    ensures v.solo == w.solo && v.timeline == w.timeline
    ensures v.config == w.config || v.config == w.save.config
    ensures v.configOnDisk == w.configOnDisk || v.configOnDisk == w.save.config
    ensures v.save.Quiet? || v.save.config == w.save.config
  {
  }

  lemma OtherEventKeepsConfigs(w: World, e: Event)
    requires ConfigsOk(w) && Enabled(w, e) && Assumed(w, e) && !e.TaskStep?
    ensures ConfigsOk(Step(w, e))
  {
    match e
    case Publish(_, _) =>
    case DeleteFile(_) =>
    case Start(_, _) =>
    case Cancel(_) =>
    case Crash =>
    case SaveBegin(_) =>
    case SaveStep(ok) =>
      SaveFrame(w, SaveConfig(w, ok), ok);
      SavedConfigsOk(w, SaveConfig(w, ok));
  }

  lemma SavedConfigsOk(w: World, v: World)
    requires ConfigsOk(w) && !w.save.Quiet? && v.solo == w.solo
    requires v.config == w.config || v.config == w.save.config
    requires v.configOnDisk == w.configOnDisk || v.configOnDisk == w.save.config
    requires v.save.Quiet? || v.save.config == w.save.config
    ensures ConfigsOk(v)
  {
  }

  lemma OtherEventKeepsLines(w: World, e: Event)
    requires LinesOk(w) && Enabled(w, e) && Assumed(w, e) && !e.TaskStep?
    ensures LinesOk(Step(w, e))
  {
    match e
    case Publish(source, release) => PublishKeepsLines(w, source, release);
    case DeleteFile(_) => SameLines(w, Step(w, e));
    case Start(_, _) => SameLines(w, Step(w, e));
    case Cancel(_) => SameLines(w, Step(w, e));
    case Crash => SameLines(w, Step(w, e));
    case SaveBegin(_) => SameLines(w, Step(w, e));
    case SaveStep(ok) =>
      SaveFrame(w, SaveConfig(w, ok), ok);
      SameLines(w, SaveConfig(w, ok));
  }

  lemma SameLines(w: World, v: World)
    requires LinesOk(w) && v.timeline == w.timeline
    ensures LinesOk(v)
  {
    assert forall source :: Timeline(v, source) == Timeline(w, source);
  }

  lemma StepKeepsInv(w: World, e: Event)
    requires Inv(w) && Enabled(w, e) && Assumed(w, e)
    ensures Inv(Step(w, e))
  {
    if e.TaskStep? {
      TaskStepKeepsInv(w, e.t, e.ok, e.i);
    } else {
      EngineState.InvKept(w, e);
      OtherEventKeepsTargets(w, e);
      OtherEventKeepsConfigs(w, e);
      OtherEventKeepsLines(w, e);
    }
  }

  lemma {:induction false} RunKeepsInv(w: World, events: seq<Event>)
    requires Inv(w) && BehavedRun(w, events)
    ensures Run(w, events) && Inv(After(w, events))
    decreases |events|
  {
    BehavedIsRun(w, events);
    if events != [] {
      StepKeepsInv(w, events[0]);
      RunKeepsInv(Step(w, events[0]), events[1..]);
    }
  }

  /** A fresh engine beside any targets, any sources with distinct versions and bindings that share no place. */
  ghost predicate FreshStart(w: World) {
    Init(w) && Sound(w.medium) && LinesOk(w) && Exclusive(w.config, w.solo)
  }

  lemma StartInv(w: World)
    requires FreshStart(w)
    ensures Inv(w)
  {
  }

  /** A sync's agreeing answer is the outcome that it has just logged. */
  lemma AnswerWasLogged(w: World, t: nat, ok: bool, i: nat)
    requires Ready(w, t, ok, i) && w.tasks[t].kind.Sync?
    requires NextPc(w, t, ok, i).Done? && Agreeing(NextPc(w, t, ok, i).answer)
    ensures w.tasks[t].pc == Logging(NextPc(w, t, ok, i).answer, NextPc(w, t, ok, i).observed)
  {
  }

  /**
   * Whenever a sync answers that nothing changed, that it applied, or that a restart is due, its place in the target
   * holds the payload of the version it observed, in every run with failures and crashes anywhere.
   */
  lemma AnswerAgreesWithTarget(w: World, events: seq<Event>, t: nat, ok: bool, i: nat)
    requires FreshStart(w) && BehavedRun(w, events) && Run(w, events)
    requires Ready(After(w, events), t, ok, i)
    requires After(w, events).tasks[t].kind.Sync?
    ensures var z := After(w, events); var v := Advance(z, t, ok, i);
            v.tasks[t].pc.Done? && Agreeing(v.tasks[t].pc.answer) ==>
              v.tasks[t].pc.observed.Some? && ContentIs(v, BindingOf(z, t), v.tasks[t].pc.observed.value)
  {
    StartInv(w);
    RunKeepsInv(w, events);
    var z := After(w, events);
    assert TaskOk(z, t);
    if NextPc(z, t, ok, i).Done? && Agreeing(NextPc(z, t, ok, i).answer) {
      AnswerWasLogged(z, t, ok, i);
      AdvanceQuiet(z, t, ok, i);
    }
    EngineState.AdvanceStateMove(z, t, ok, i);
  }
}
