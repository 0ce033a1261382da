/**
 * Several handles on one local vault file, in one process or in many. Edits hold the lock file from reload to
 * rename; readers take no lock and keep reading the file they opened even when it is replaced meanwhile.
 */
module LocalHandles {
  import opened Basics
  import opened VaultFormat
  import opened VaultView

  datatype Phase =
    | Idle
    | Looking(file: File)
    | Holding
    | Loaded(base: Maps)
    | Staged(base: Maps, edit: Edit, file: File)

  datatype Handle = Handle(maps: Maps, phase: Phase)

  /** The file as it is (the last of `history`), the edits that made it, the lock and the handles. */
  datatype World = World(
    key: Key, salt: string,
    history: seq<File>, log: seq<Edit>, lock: Option<nat>, handles: seq<Handle>)

  datatype Event =
    | OpenFile(h: nat)
    | FinishRead(h: nat)
    | Acquire(h: nat)
    | Reload(h: nat)
    | Stage(h: nat, edit: Edit)
    | Rename(h: nat)
    | Fail(h: nat)
    | Crash(h: nat)

  predicate HoldsLock(p: Phase) { p.Holding? || p.Loaded? || p.Staged? }

  predicate Enabled(w: World, e: Event) {
    && e.h < |w.handles| && 0 < |w.history|
    && var p := w.handles[e.h].phase;
       match e
       case OpenFile(_) => p.Idle?
       case FinishRead(_) => p.Looking?
       case Acquire(_) => p.Idle? && w.lock == None
       case Reload(_) => p.Holding?
       case Stage(_, edit) => p.Loaded? && Admissible(edit, p.base)
       case Rename(_) => p.Staged?
       case Fail(_) => true
       case Crash(_) => true
  }

  function Current(w: World): File
    requires 0 < |w.history|
  {
    w.history[|w.history| - 1]
  }

  function Moved(w: World, e: Event): Handle
    requires Enabled(w, e)
  {
    var handle := w.handles[e.h];
    match e
    case OpenFile(_) => handle.(phase := Looking(Current(w)))
    case FinishRead(_) =>
      (match Load(handle.phase.file, w.key, w.salt)
       case Ok(m) => Handle(m, Idle)
       case Err(_) => handle.(phase := Idle))
    case Acquire(_) => handle.(phase := Holding)
    case Reload(_) =>
      (match Load(Current(w), w.key, w.salt)
       case Ok(m) => Handle(m, Loaded(m))
       case Err(_) => handle.(phase := Idle))
    case Stage(_, edit) =>
      var edited := EditMaps(edit, handle.phase.base, w.key);
      Handle(edited, Staged(handle.phase.base, edit, EncodeFile(edited, w.key, w.salt)))
    case Rename(_) => handle.(phase := Idle)
    case Fail(_) => Handle(if handle.phase.Staged? then handle.phase.base else handle.maps, Idle)
    case Crash(_) => Handle(EMPTY, Idle)
  }

  function Step(w: World, e: Event): World
    requires Enabled(w, e)
  {
    var moved := Moved(w, e);
    var lock :=
      if HoldsLock(moved.phase) then Some(e.h)
      else if HoldsLock(w.handles[e.h].phase) then None
      else w.lock;
    var v := w.(handles := w.handles[e.h := moved], lock := lock);
    if e.Rename?
    then v.(history := w.history + [w.handles[e.h].phase.file], log := w.log + [w.handles[e.h].phase.edit])
    else v
  }

  ghost predicate Init(w: World) {
    && |w.history| == 1 && w.log == [] && w.lock == None && Intact(w.history[0], w.key, w.salt)
    && forall h | 0 <= h < |w.handles| :: w.handles[h] == Handle(EMPTY, Idle)
  }

  ghost predicate HistoryOk(w: World) {
    Chain(w.history, w.log, w.key, w.salt) && Intact(Current(w), w.key, w.salt)
  }

  /** A handle past its reload works on the file as it still is. */
  ghost predicate HandleOk(w: World, handle: Handle)
    requires HistoryOk(w)
  {
    match handle.phase
    case Idle => true
    case Looking(file) => file in w.history
    case Holding => true
    case Loaded(base) => handle.maps == base == MapsIn(Current(w), w.key, w.salt)
    case Staged(base, edit, file) =>
      && base == MapsIn(Current(w), w.key, w.salt) && Admissible(edit, base)
      && handle.maps == EditMaps(edit, base, w.key) && file == EncodeFile(handle.maps, w.key, w.salt)
  }

  ghost predicate Inv(w: World) {
    && HistoryOk(w)
    && (forall h | 0 <= h < |w.handles| :: HandleOk(w, w.handles[h]))
    && (forall h | 0 <= h < |w.handles| :: HoldsLock(w.handles[h].phase) <==> w.lock == Some(h))
  }

  lemma InitInv(w: World)
    requires Init(w)
    ensures Inv(w)
  {
  }

  lemma StagedFollows(w: World, h: nat)
    requires HistoryOk(w) && h < |w.handles| && w.handles[h].phase.Staged? && HandleOk(w, w.handles[h])
    ensures Follows(Current(w), w.handles[h].phase.edit, w.handles[h].phase.file, w.key, w.salt)
  {
  }

  lemma HistoryKept(w: World, e: Event)
    requires Inv(w) && Enabled(w, e)
    ensures HistoryOk(Step(w, e))
  {
    if e.Rename? {
      var p := w.handles[e.h].phase;
      StagedFollows(w, e.h);
      ChainGrows(w.history, w.log, p.edit, p.file, w.key, w.salt);
    }
  }

  lemma MovedOk(w: World, e: Event)
    requires HistoryOk(w) && Enabled(w, e) && HandleOk(w, w.handles[e.h]) && HistoryOk(Step(w, e))
    ensures HandleOk(Step(w, e), Moved(w, e))
  {
  }

  /** Whoever is past its reload holds the lock, so the file has not moved under it. */
  lemma OthersOk(w: World, e: Event, h: nat)
    requires Inv(w) && Enabled(w, e) && HistoryOk(Step(w, e)) && h < |w.handles| && h != e.h
    ensures HandleOk(Step(w, e), w.handles[h])
  {
    assert HandleOk(w, w.handles[h]);
    assert HoldsLock(w.handles[h].phase) <==> w.lock == Some(h);
    assert HoldsLock(w.handles[e.h].phase) <==> w.lock == Some(e.h);
  }

  lemma LockKept(w: World, e: Event)
    requires Inv(w) && Enabled(w, e)
    ensures var v := Step(w, e); forall h | 0 <= h < |v.handles| :: HoldsLock(v.handles[h].phase) <==> v.lock == Some(h)
  {
    assert HoldsLock(w.handles[e.h].phase) <==> w.lock == Some(e.h);
  }

  lemma StepKeepsInv(w: World, e: Event)
    requires Inv(w) && Enabled(w, e)
    ensures Inv(Step(w, e))
  {
    HistoryKept(w, e);
    LockKept(w, e);
    assert HandleOk(w, w.handles[e.h]);
    MovedOk(w, e);
    forall h | 0 <= h < |w.handles| && h != e.h ensures HandleOk(Step(w, e), w.handles[h]) {
      OthersOk(w, e, h);
    }
  }

  ghost predicate Run(w: World, events: seq<Event>)
    decreases |events|
  {
    events != [] ==> Enabled(w, events[0]) && Run(Step(w, events[0]), events[1..])
  }

  ghost function After(w: World, events: seq<Event>): World
    requires Run(w, events)
    decreases |events|
  {
    if events == [] then w else After(Step(w, events[0]), events[1..])
  }

  lemma {:induction false} RunKeepsInv(w: World, events: seq<Event>)
    requires Inv(w) && Run(w, events)
    ensures Inv(After(w, events))
    ensures w.history <= After(w, events).history && w.log <= After(w, events).log
    ensures After(w, events).key == w.key && After(w, events).salt == w.salt
    decreases |events|
  {
    if events != [] {
      StepKeepsInv(w, events[0]);
      RunKeepsInv(Step(w, events[0]), events[1..]);
    }
  }

  /** Linearizable: at every moment the file is the first file with all successful edits applied one after another. */
  lemma FileIsSerial(w: World, events: seq<Event>)
    requires Init(w) && Run(w, events)
    ensures var z := After(w, events);
            && |z.history| == |z.log| + 1 && Intact(w.history[0], w.key, w.salt) && Intact(Current(z), z.key, z.salt)
            && View(MapsIn(Current(z), z.key, z.salt), z.key) == Replay(View(MapsIn(w.history[0], w.key, w.salt), w.key), z.log)
  {
    InitInv(w);
    RunKeepsInv(w, events);
    var z := After(w, events);
    ChainReplays(z.history, z.log, |z.log|, z.key, z.salt);
    assert z.log[..|z.log|] == z.log;
  }

  /** A reader's maps come from one file that was current while it read, written whole by one edit or at the start. */
  lemma ReaderSeesWholeFile(w: World, events: seq<Event>, h: nat)
    requires Init(w) && Run(w, events)
    requires Enabled(After(w, events), FinishRead(h))
    ensures var z := After(w, events); var file := z.handles[h].phase.file;
            && file in z.history && Intact(file, z.key, z.salt)
            && Step(z, FinishRead(h)).handles[h].maps == MapsIn(file, z.key, z.salt)
  {
    InitInv(w);
    RunKeepsInv(w, events);
    var z := After(w, events);
    assert HandleOk(z, z.handles[h]);
    var i :| 0 <= i < |z.history| && z.history[i] == z.handles[h].phase.file;
    ChainIntact(z.history, z.log, i, z.key, z.salt);
  }

  /** A failed edit leaves the file alone and puts back the maps that the reload gave. */
  lemma FailedEditLeavesNoTrace(w: World, events: seq<Event>, h: nat)
    requires Init(w) && Run(w, events) && h < |After(w, events).handles|
    requires HoldsLock(After(w, events).handles[h].phase) && !After(w, events).handles[h].phase.Holding?
    ensures Enabled(After(w, events), Fail(h))
    ensures var z := After(w, events); var failed := Step(z, Fail(h));
            && failed.history == z.history && failed.log == z.log && failed.lock == None
            && Load(Current(z), z.key, z.salt) == Ok(failed.handles[h].maps)
  {
    InitInv(w);
    RunKeepsInv(w, events);
    var z := After(w, events);
    assert HandleOk(z, z.handles[h]);
    assert HoldsLock(z.handles[h].phase) <==> z.lock == Some(h);
  }
}
