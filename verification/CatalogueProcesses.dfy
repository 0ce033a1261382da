/**
 * Any number of processes on one catalogue file. Each writes it under the file's lock, in the steps of `persist`: take
 * the lock, compare the file with what the process knows, replace it, and only then believe the new content. Any step
 * can fail and any process can crash.
 */
module CatalogueProcesses {
  import opened Basics
  import opened Catalogue

  datatype Phase =
    | Closed
    | Idle
    | Wanting(edit: Edit, list: seq<Connection>)
    | Locked(edit: Edit, list: seq<Connection>)
    | Compared(edit: Edit, list: seq<Connection>)
    | Replaced(list: seq<Connection>)

  /** A process: what it last read or wrote, the connections it holds, and how far its current call has come. */
  datatype Process = Process(saved: Option<Doc>, connections: Connections, phase: Phase)

  /** The file (the last of `history`), the edits that made it, its lock and the processes. */
  datatype World = World(history: seq<Option<Doc>>, log: seq<Edit>, lock: Option<nat>, processes: seq<Process>)

  datatype Event =
    | OpenFile(p: nat)
    | Begin(p: nat, edit: Edit, list: seq<Connection>)
    | TryLock(p: nat)
    | Compare(p: nat)
    | Replace(p: nat)
    | Adopt(p: nat)
    | Fail(p: nat)
    | Crash(p: nat)

  predicate HoldsLock(phase: Phase) { phase.Locked? || phase.Compared? || phase.Replaced? }

  function File(w: World): Option<Doc>
    requires w.history != []
  {
    w.history[|w.history| - 1]
  }

  predicate Enabled(w: World, e: Event) {
    && w.history != [] && e.p < |w.processes|
    && var process := w.processes[e.p];
       match e
       case OpenFile(_) => process.phase.Closed?
       case Begin(_, edit, list) =>
         process.phase.Idle? && |list| <= MAX_CONNECTIONS && Checked(list).Some? && Apply(process.connections, edit) == Checked(list)
       case TryLock(_) => process.phase.Wanting?
       case Compare(_) => process.phase.Locked?
       case Replace(_) => process.phase.Compared?
       case Adopt(_) => process.phase.Replaced?
       case Fail(_) => process.phase.Wanting? || process.phase.Locked? || process.phase.Compared?
       case Crash(_) => true
  }

  function Written(list: seq<Connection>): Option<Doc> { Some(Doc(1, list, 0)) }

  function Moved(w: World, e: Event): Process
    requires Enabled(w, e)
  {
    var process := w.processes[e.p];
    match e
    case OpenFile(_) =>
      (match Content(File(w))
       case Some(m) => Process(File(w), m, Idle)
       case None => process)
    case Begin(_, edit, list) => process.(phase := Wanting(edit, list))
    case TryLock(_) =>
      process.(phase := if w.lock.None? then Locked(process.phase.edit, process.phase.list) else Idle)
    case Compare(_) =>
      process.(phase := if File(w) == process.saved then Compared(process.phase.edit, process.phase.list) else Idle)
    case Replace(_) => process.(phase := Replaced(process.phase.list))
    case Adopt(_) =>
      (match Checked(process.phase.list)
       case Some(m) => Process(Written(process.phase.list), m, Idle)
       case None => process)
    case Fail(_) => process.(phase := Idle)
    case Crash(_) => Process(None, map[], Closed)
  }

  function Step(w: World, e: Event): World
    requires Enabled(w, e)
  {
    var before, moved := w.processes[e.p], Moved(w, e);
    var v := w.(processes := w.processes[e.p := moved],
                lock := if HoldsLock(moved.phase) then Some(e.p) else if HoldsLock(before.phase) then None else w.lock);
    if e.Replace? then v.(history := w.history + [Written(before.phase.list)], log := w.log + [before.phase.edit]) else v
  }

  /** Any file, or none, and processes that have not started. */
  ghost predicate Init(w: World) {
    && |w.history| == 1 && w.log == [] && w.lock.None?
    && forall p | 0 <= p < |w.processes| :: w.processes[p] == Process(None, map[], Closed)
  }

  // ---- the invariant ----

  predicate Follows(was: Option<Doc>, edit: Edit, now: Option<Doc>) {
    Content(was).Some? && Content(now).Some? && Apply(Content(was).value, edit) == Content(now)
  }

  /** Each content is the one before it with the one logged edit applied. */
  ghost predicate HistoryOk(w: World) {
    Linked(w.history, w.log, Follows)
  }

  ghost predicate ProcessOk(w: World, process: Process)
    requires w.history != []
  {
    && (!process.phase.Closed? && !process.phase.Replaced? ==>
          process.saved in w.history && Content(process.saved) == Some(process.connections))
    && (process.phase.Wanting? || process.phase.Locked? || process.phase.Compared? ==>
          |process.phase.list| <= MAX_CONNECTIONS && Checked(process.phase.list).Some? &&
          Apply(process.connections, process.phase.edit) == Checked(process.phase.list))
    && (process.phase.Compared? ==> File(w) == process.saved)
    && (process.phase.Replaced? ==>
          |process.phase.list| <= MAX_CONNECTIONS && Checked(process.phase.list).Some? && File(w) == Written(process.phase.list))
  }

  ghost predicate LockOk(w: World) {
    forall p | 0 <= p < |w.processes| :: HoldsLock(w.processes[p].phase) <==> w.lock == Some(p)
  }

  ghost predicate Inv(w: World) {
    && HistoryOk(w) && LockOk(w)
    && forall p | 0 <= p < |w.processes| :: ProcessOk(w, w.processes[p])
  }

  lemma ReplaceKeepsHistory(w: World, p: nat)
    requires HistoryOk(w) && Enabled(w, Replace(p)) && ProcessOk(w, w.processes[p])
    ensures HistoryOk(Step(w, Replace(p)))
  {
    ReplaceFollows(w, p);
    LinkedGrows(w.history, w.log, Follows, w.processes[p].phase.edit, Written(w.processes[p].phase.list));
  }

  lemma ReplaceFollows(w: World, p: nat)
    requires Enabled(w, Replace(p)) && ProcessOk(w, w.processes[p])
    ensures Follows(File(w), w.processes[p].phase.edit, Written(w.processes[p].phase.list))
  {
  }

  lemma MovedOk(w: World, e: Event)
    requires Inv(w) && Enabled(w, e)
    ensures var v := Step(w, e); v.history != [] && ProcessOk(v, v.processes[e.p])
  {
    assert ProcessOk(w, w.processes[e.p]);
  }

  /** Whoever is not moving and depends on the file holds the lock, so the file has not moved either. */
  lemma OthersOk(w: World, e: Event, p: nat)
    requires Inv(w) && Enabled(w, e) && p < |w.processes| && p != e.p
    ensures var v := Step(w, e); v.history != [] && ProcessOk(v, v.processes[p])
  {
    assert ProcessOk(w, w.processes[p]);
    assert HoldsLock(w.processes[p].phase) <==> w.lock == Some(p);
    assert HoldsLock(w.processes[e.p].phase) <==> w.lock == Some(e.p);
  }

  lemma StepKeepsLock(w: World, e: Event)
    requires LockOk(w) && Enabled(w, e)
    ensures LockOk(Step(w, e))
  {
    var v := Step(w, e);
    forall p | 0 <= p < |v.processes| ensures HoldsLock(v.processes[p].phase) <==> v.lock == Some(p) {
      assert HoldsLock(w.processes[p].phase) <==> w.lock == Some(p);
      assert HoldsLock(w.processes[e.p].phase) <==> w.lock == Some(e.p);
    }
  }

  lemma StepKeepsInv(w: World, e: Event)
    requires Inv(w) && Enabled(w, e)
    ensures Inv(Step(w, e))
  {
    StepKeepsLock(w, e);
    if e.Replace? {
      ReplaceKeepsHistory(w, e.p);
    }
    forall p | 0 <= p < |w.processes| ensures ProcessOk(Step(w, e), Step(w, e).processes[p]) {
      if p == e.p {
        MovedOk(w, e);
      } else {
        OthersOk(w, e, p);
      }
    }
  }

  ghost predicate Run(w: World, events: seq<Event>)
    decreases |events|
  {
    events != [] ==> Enabled(w, events[0]) && Run(Step(w, events[0]), events[1..])
  }

  ghost function After(w: World, events: seq<Event>): World
    requires Run(w, events)
    decreases |events|
  {
    if events == [] then w else After(Step(w, events[0]), events[1..])
  }

  lemma {:induction false} RunKeepsInv(w: World, events: seq<Event>)
    requires Inv(w) && Run(w, events)
    ensures Inv(After(w, events)) && w.history <= After(w, events).history
    decreases |events|
  {
    if events != [] {
      StepKeepsInv(w, events[0]);
      RunKeepsInv(Step(w, events[0]), events[1..]);
    }
  }

  // ---- what holds of every run ----

  /** Whatever the processes do, each content of the file is the one before it with exactly one edit applied. */
  lemma EveryContentIsOneEdit(w: World, events: seq<Event>)
    requires Init(w) && Run(w, events)
    ensures Chained(After(w, events).history)
    ensures HistoryOk(After(w, events))
  {
    RunKeepsInv(w, events);
    var z := After(w, events);
    forall i | 0 <= i < |z.history| - 1 ensures OneEdit(z.history[i], z.history[i + 1]) {
      assert Follows(z.history[i], z.log[i], z.history[i + 1]);
      EditMade(z.history[i], z.history[i + 1], z.log[i]);
    }
  }

  /**
   * A process replaces the file only while the file is what the process last read or wrote, and then by its own edit
   * of that; a process that finds another content gives up and leaves the file.
   */
  lemma StaleNeverOverwrites(w: World, events: seq<Event>, p: nat)
    requires Init(w) && Run(w, events) && p < |After(w, events).processes|
    ensures var z := After(w, events); var process := z.processes[p];
            && (Enabled(z, Replace(p)) ==>
                  && File(z) == process.saved && Content(File(z)) == Some(process.connections)
                  && Content(File(Step(z, Replace(p)))) == Apply(process.connections, process.phase.edit))
            && (Enabled(z, Compare(p)) && File(z) != process.saved ==>
                  var v := Step(z, Compare(p));
                  v.history == z.history && v.lock.None? && v.processes[p] == process.(phase := Idle))
  {
    RunKeepsInv(w, events);
    var z := After(w, events);
    assert ProcessOk(z, z.processes[p]);
    assert HoldsLock(z.processes[p].phase) <==> z.lock == Some(p);
  }

  /**
   * What an open process holds is always a content that the file had, unless it has just replaced the file. A call that
   * fails leaves it at that, and the file alone; after one that succeeds the process holds what the file holds.
   */
  lemma CallsAgreeWithFile(w: World, events: seq<Event>, p: nat)
    requires Init(w) && Run(w, events) && p < |After(w, events).processes|
    ensures var z := After(w, events); var process := z.processes[p];
            && (!process.phase.Closed? && !process.phase.Replaced? ==>
                  process.saved in z.history && Content(process.saved) == Some(process.connections))
            && (Enabled(z, Fail(p)) ==>
                  var v := Step(z, Fail(p));
                  && v.history == z.history && v.processes[p] == process.(phase := Idle)
                  && v.processes[p].saved in v.history && Content(v.processes[p].saved) == Some(v.processes[p].connections))
            && (Enabled(z, Adopt(p)) ==>
                  var v := Step(z, Adopt(p));
                  && v.history == z.history && v.lock.None?
                  && v.processes[p].saved == File(z) && Some(v.processes[p].connections) == Content(File(z)))
  {
    RunKeepsInv(w, events);
    var z := After(w, events);
    assert ProcessOk(z, z.processes[p]);
    assert HoldsLock(z.processes[p].phase) <==> z.lock == Some(p);
  }

  /** While an id is never absent from the file it denotes the same place, whichever processes write in between. */
  lemma IdsKeepTheirPlace(w: World, events: seq<Event>, i: nat, j: nat, id: string)
    requires Init(w) && Run(w, events) && i <= j < |After(w, events).history|
    requires forall k | i <= k <= j ::
               Content(After(w, events).history[k]).Some? && id in Content(After(w, events).history[k]).value
    ensures var z := After(w, events);
            SamePlace(Content(z.history[i]).value[id].location, Content(z.history[j]).value[id].location)
  {
    EveryContentIsOneEdit(w, events);
    IdsAreNotRepointed(After(w, events).history, i, j, id);
  }

  // ---- one call without others in between ----

  lemma RunsOn(w: World, e: Event, events: seq<Event>)
    requires Enabled(w, e) && Run(Step(w, e), events)
    ensures Run(w, [e] + events) && After(w, [e] + events) == After(Step(w, e), events)
  {
    assert ([e] + events)[1..] == events;
  }

  /** The steps of a call that no one disturbs: it ends at a lock that is taken, at another content, or with its own. */
  function CallSteps(w: World, p: nat, edit: Edit, list: seq<Connection>): seq<Event>
    requires Enabled(w, Begin(p, edit, list))
  {
    [Begin(p, edit, list), TryLock(p)] +
    if w.lock.Some? then [] else
      [Compare(p)] + if File(w) != w.processes[p].saved then [] else [Replace(p), Adopt(p)]
  }

  lemma FirstSteps(w: World, p: nat, edit: Edit, list: seq<Connection>) returns (v: World)
    requires Enabled(w, Begin(p, edit, list))
    ensures var begun := Step(w, Begin(p, edit, list)); Enabled(begun, TryLock(p)) && v == Step(begun, TryLock(p))
    ensures v.history == w.history && v.log == w.log && |v.processes| == |w.processes|
    ensures v.lock == (if w.lock.Some? then w.lock else Some(p))
    ensures v.processes[p] == w.processes[p].(phase := if w.lock.Some? then Idle else Locked(edit, list))
  {
    v := Step(Step(w, Begin(p, edit, list)), TryLock(p));
  }

  lemma LastSteps(w: World, p: nat) returns (v: World)
    requires Enabled(w, Replace(p)) && Checked(w.processes[p].phase.list).Some?
    ensures var written := Step(w, Replace(p)); Enabled(written, Adopt(p)) && v == Step(written, Adopt(p))
    ensures v.history == w.history + [Written(w.processes[p].phase.list)] && v.lock.None? && |v.processes| == |w.processes|
    ensures v.processes[p] == Process(Written(w.processes[p].phase.list), Checked(w.processes[p].phase.list).value, Idle)
  {
    v := Step(Step(w, Replace(p)), Adopt(p));
  }

  /** An undisturbed call does what `Disk.Persist` does: the whole list over the known content, or nothing. */
  lemma PersistIsItsSteps(w: World, p: nat, edit: Edit, list: seq<Connection>)
    requires Enabled(w, Begin(p, edit, list))
    ensures Run(w, CallSteps(w, p, edit, list))
    ensures var v := After(w, CallSteps(w, p, edit, list));
            var success := w.lock.None? && File(w) == w.processes[p].saved;
            && v.history == (if success then w.history + [Written(list)] else w.history)
            && v.lock == w.lock && p < |v.processes|
            && v.processes[p] == if success then Process(Written(list), Checked(list).value, Idle) else w.processes[p]
  {
    var begun := Step(w, Begin(p, edit, list));
    var tried := FirstSteps(w, p, edit, list);
    if w.lock.Some? {
      RunsOn(begun, TryLock(p), []);
      RunsOn(w, Begin(p, edit, list), [TryLock(p)]);
    } else {
      var compared := Step(tried, Compare(p));
      var rest: seq<Event> := [];
      if File(w) == w.processes[p].saved {
        var last := LastSteps(compared, p);
        rest := [Replace(p), Adopt(p)];
        RunsOn(Step(compared, Replace(p)), Adopt(p), []);
        RunsOn(compared, Replace(p), [Adopt(p)]);
      }
      RunsOn(tried, Compare(p), rest);
      RunsOn(begun, TryLock(p), [Compare(p)] + rest);
      RunsOn(w, Begin(p, edit, list), [TryLock(p)] + ([Compare(p)] + rest));
      assert CallSteps(w, p, edit, list) == [Begin(p, edit, list)] + ([TryLock(p)] + ([Compare(p)] + rest));
    }
  }
}
