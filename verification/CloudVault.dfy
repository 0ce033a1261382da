/**
 * Any number of devices editing one cloud vault. A revision's tag is its place in the server's history, so a tag
 * names one revision for ever and the server commits a PUT exactly when the tag it carries is the last place.
 * Requests may be delayed, repeated or lost, and so may their answers.
 */
module CloudVault {
  import opened Basics
  import opened VaultFormat
  import opened VaultView

  /**
   * A conditional PUT on the wire. No two are alike, for each encryption draws its own nonces; `edit` is what was done
   * to the reloaded maps, and `seen` the manifest that the device held before it reloaded.
   */
  datatype Request = Request(nonce: nat, tag: nat, file: File, edit: Edit, seen: map<string, EntryMeta>)

  datatype Phase =
    | Idle
    | Asked(editing: bool, tag: nat)
    | Fetched(editing: bool, tag: nat, file: File)
    | Read(editing: bool, since: nat, file: File)
    | Loaded(base: Maps, held: map<string, EntryMeta>)
    | Sent(base: Maps, request: Request)

  /** A device: the cached revision, the two maps in memory and how far its current call has come. */
  datatype Device = Device(cache: Option<(nat, File)>, maps: Maps, phase: Phase)

  /** The server's revisions and the requests that made them, what is on the wire, and whom success was answered to. */
  datatype World = World(
    key: Key, salt: string,
    history: seq<File>, log: seq<Request>, wire: set<Request>, drawn: nat, confirmed: seq<Request>, devices: seq<Device>)

  datatype Event =
    | Ask(d: nat, editing: bool)
    | Download(d: nat, served: nat)
    | Recheck(d: nat)
    | Open(d: nat)
    | Send(d: nat, edit: Edit)
    | Commit(request: Request)
    | Confirm(d: nat)
    | Fail(d: nat)
    | Restart(d: nat)

  predicate Enabled(w: World, e: Event) {
    match e
    case Commit(r) => r in w.wire && r.tag == |w.history| - 1
    case Ask(d, _) => d < |w.devices| && w.devices[d].phase.Idle? && 0 < |w.history|
    case Download(d, served) =>
      d < |w.devices| && w.devices[d].phase.Asked? && w.devices[d].phase.tag <= served < |w.history|
    case Recheck(d) => d < |w.devices| && w.devices[d].phase.Fetched?
    case Open(d) => d < |w.devices| && w.devices[d].phase.Read?
    case Send(d, edit) =>
      && d < |w.devices| && w.devices[d].phase.Loaded? && w.devices[d].cache.Some?
      && Admissible(edit, w.devices[d].phase.base)
    case Confirm(d) => d < |w.devices| && w.devices[d].phase.Sent? && w.devices[d].phase.request in w.log
    case Fail(d) => d < |w.devices|
    case Restart(d) => d < |w.devices|
  }

  /** What `Open` makes of a snapshot: a reload, refused if the file is bad or the manifest is not the one held. */
  function Opened(w: World, device: Device): Device
    requires device.phase.Read?
  {
    match Load(device.phase.file, w.key, w.salt)
    case Err(_) => device.(phase := Idle)
    case Ok(m) =>
      if device.phase.editing && m.entries != device.maps.entries then device.(phase := Idle)
      else device.(maps := m, phase := if device.phase.editing then Loaded(m, device.maps.entries) else Idle)
  }

  /** The device after its own part of an event; `Commit` is the server's. */
  function Moved(w: World, e: Event, device: Device): Device
    requires !e.Commit? && e.d < |w.devices| && device == w.devices[e.d] && Enabled(w, e)
  {
    match e
    case Ask(_, editing) =>
      var tag := |w.history| - 1;
      if device.cache.Some? && device.cache.value.0 == tag
      then device.(phase := Read(editing, tag, device.cache.value.1))
      else device.(phase := Asked(editing, tag))
    case Download(_, served) =>
      device.(phase := Fetched(device.phase.editing, device.phase.tag, w.history[served]))
    case Recheck(_) =>
      if |w.history| - 1 == device.phase.tag
      then device.(cache := Some((device.phase.tag, device.phase.file)), phase := Read(device.phase.editing, device.phase.tag, device.phase.file))
      else device.(phase := Idle)
    case Open(_) => Opened(w, device)
    case Send(_, edit) =>
      device.(maps := EditMaps(edit, device.phase.base, w.key), phase := Sent(device.phase.base, RequestOf(w, device, edit)))
    case Confirm(_) => device.(cache := None, phase := Idle)
    case Fail(_) => if device.phase.Sent? then device.(maps := device.phase.base, phase := Idle) else device.(phase := Idle)
    case Restart(_) => Device(None, EMPTY, Idle)
  }

  function RequestOf(w: World, device: Device, edit: Edit): Request
    requires device.phase.Loaded? && device.cache.Some? && Admissible(edit, device.phase.base)
  {
    var base := device.phase.base;
    Request(w.drawn, device.cache.value.0, EncodeFile(EditMaps(edit, base, w.key), w.key, w.salt), edit, device.phase.held)
  }

  function Step(w: World, e: Event): World
    requires Enabled(w, e)
  {
    match e
    case Commit(r) => w.(history := w.history + [r.file], log := w.log + [r])
    case Send(d, edit) =>
      w.(devices := w.devices[d := Moved(w, e, w.devices[d])],
         wire := w.wire + {RequestOf(w, w.devices[d], edit)}, drawn := w.drawn + 1)
    case Confirm(d) =>
      w.(devices := w.devices[d := Moved(w, e, w.devices[d])], confirmed := w.confirmed + [w.devices[d].phase.request])
    case _ => w.(devices := w.devices[e.d := Moved(w, e, w.devices[e.d])])
  }

  /** A vault with one intact revision, and devices that have just started. */
  ghost predicate Init(w: World) {
    && |w.history| == 1 && w.log == [] && w.wire == {} && w.confirmed == []
    && Intact(w.history[0], w.key, w.salt)
    && forall d | 0 <= d < |w.devices| :: w.devices[d] == Device(None, EMPTY, Idle)
  }

  ghost function MapsAt(w: World, i: nat): Maps
    requires i < |w.history| && Intact(w.history[i], w.key, w.salt)
  {
    MapsIn(w.history[i], w.key, w.salt)
  }

  /**
   * The request holds the revision named by its tag with exactly its one edit applied, and its device held the
   * manifest of that revision before it reloaded.
   */
  ghost predicate OneEdit(w: World, r: Request) {
    && r.tag < |w.history| && Follows(w.history[r.tag], r.edit, r.file, w.key, w.salt)
    && r.seen == MapsAt(w, r.tag).entries
  }

  ghost predicate CacheTrue(w: World, device: Device) {
    device.cache.Some? ==> device.cache.value.0 < |w.history| && w.history[device.cache.value.0] == device.cache.value.1
  }

  ghost predicate PhaseOk(w: World, device: Device) {
    match device.phase
    case Idle => true
    case Asked(_, tag) => tag < |w.history|
    case Fetched(_, tag, file) => exists i :: tag <= i < |w.history| && file == w.history[i]
    case Read(_, since, file) => device.cache.Some? && since <= device.cache.value.0 && device.cache.value.1 == file
    case Loaded(base, held) =>
      device.cache.Some? && device.maps == base && base.entries == held && Load(device.cache.value.1, w.key, w.salt) == Ok(base)
    case Sent(base, r) =>
      && r in w.wire && device.cache.Some? && r.tag == device.cache.value.0
      && Load(device.cache.value.1, w.key, w.salt) == Ok(base)
  }

  ghost predicate HistoryOk(w: World) {
    && |w.history| == |w.log| + 1
    && (forall i | 0 <= i < |w.history| :: Intact(w.history[i], w.key, w.salt))
    && (forall i | 0 <= i < |w.log| :: w.log[i].tag == i && w.log[i].file == w.history[i + 1] && OneEdit(w, w.log[i]))
  }

  ghost predicate Inv(w: World) {
    && HistoryOk(w)
    && (forall r | r in w.wire :: OneEdit(w, r))
    && (forall d | 0 <= d < |w.devices| :: CacheTrue(w, w.devices[d]) && PhaseOk(w, w.devices[d]))
  }

  lemma InitInv(w: World)
    requires Init(w)
    ensures Inv(w)
  {
  }

  ghost predicate Grows(w: World, v: World) {
    v.key == w.key && v.salt == w.salt && w.history <= v.history && w.wire <= v.wire
  }

  lemma OneEditKept(w: World, v: World, r: Request)
    requires Grows(w, v) && OneEdit(w, r)
    ensures OneEdit(v, r)
  {
    assert v.history[r.tag] == w.history[r.tag];
  }

  lemma DeviceKept(w: World, v: World, device: Device)
    requires Grows(w, v) && CacheTrue(w, device) && PhaseOk(w, device)
    ensures CacheTrue(v, device) && PhaseOk(v, device)
  {
    assert forall i | 0 <= i < |w.history| :: v.history[i] == w.history[i];
  }

  lemma CommitIsIntact(w: World, r: Request)
    requires HistoryOk(w) && Enabled(w, Commit(r)) && OneEdit(w, r)
    ensures var v := Step(w, Commit(r)); forall i | 0 <= i < |v.history| :: Intact(v.history[i], v.key, v.salt)
  {
    FollowsRefines(w.history[r.tag], r.edit, r.file, w.key, w.salt);
  }

  lemma CommitKeepsHistory(w: World, r: Request)
    requires HistoryOk(w) && Enabled(w, Commit(r)) && OneEdit(w, r)
    ensures HistoryOk(Step(w, Commit(r)))
  {
    var v := Step(w, Commit(r));
    CommitIsIntact(w, r);
    forall i | 0 <= i < |v.log| ensures v.log[i].tag == i && v.log[i].file == v.history[i + 1] && OneEdit(v, v.log[i]) {
      if i < |w.log| {
        assert v.log[i] == w.log[i] && v.history[i + 1] == w.history[i + 1];
      }
      OneEditKept(w, v, v.log[i]);
    }
  }

  lemma CommitKeepsInv(w: World, r: Request)
    requires Inv(w) && Enabled(w, Commit(r))
    ensures Inv(Step(w, Commit(r)))
  {
    var v := Step(w, Commit(r));
    CommitKeepsHistory(w, r);
    forall q | q in v.wire ensures OneEdit(v, q) {
      OneEditKept(w, v, q);
    }
    forall d | 0 <= d < |v.devices| ensures CacheTrue(v, v.devices[d]) && PhaseOk(v, v.devices[d]) {
      DeviceKept(w, v, w.devices[d]);
    }
  }

  /** The request a device sends was computed from the very revision its tag names. */
  lemma SentIsOneEdit(w: World, device: Device, edit: Edit)
    requires HistoryOk(w) && CacheTrue(w, device) && PhaseOk(w, device)
    requires device.phase.Loaded? && device.cache.Some? && Admissible(edit, device.phase.base)
    ensures OneEdit(w, RequestOf(w, device, edit))
  {
    assert Intact(w.history[device.cache.value.0], w.key, w.salt);
  }

  lemma MovedCacheTrue(w: World, e: Event)
    requires Enabled(w, e) && !e.Commit? && CacheTrue(w, w.devices[e.d]) && PhaseOk(w, w.devices[e.d])
    ensures CacheTrue(Step(w, e), Moved(w, e, w.devices[e.d]))
  {
  }

  lemma MovedPhaseOk(w: World, e: Event)
    requires Enabled(w, e) && !e.Commit? && CacheTrue(w, w.devices[e.d]) && PhaseOk(w, w.devices[e.d])
    ensures PhaseOk(Step(w, e), Moved(w, e, w.devices[e.d]))
  {
    if e.Send? {
      assert RequestOf(w, w.devices[e.d], e.edit) in Step(w, e).wire;
    }
  }

  lemma DeviceStepKeepsInv(w: World, e: Event)
    requires Inv(w) && Enabled(w, e) && !e.Commit?
    ensures Inv(Step(w, e))
  {
    var v := Step(w, e);
    forall i | 0 <= i < |v.log| ensures OneEdit(v, v.log[i]) {
      OneEditKept(w, v, w.log[i]);
    }
    forall r | r in v.wire ensures OneEdit(v, r) {
      if e.Send? {
        var device := w.devices[e.d];
        assert CacheTrue(w, device) && PhaseOk(w, device);
        SentIsOneEdit(w, device, e.edit);
      }
      OneEditKept(w, v, r);
    }
    forall d | 0 <= d < |v.devices| ensures CacheTrue(v, v.devices[d]) && PhaseOk(v, v.devices[d]) {
      if d == e.d {
        assert CacheTrue(w, w.devices[d]) && PhaseOk(w, w.devices[d]);
        MovedCacheTrue(w, e);
        MovedPhaseOk(w, e);
      } else {
        DeviceKept(w, v, w.devices[d]);
      }
    }
    assert forall i | 0 <= i < |v.history| :: Intact(v.history[i], w.key, w.salt) ==> Intact(v.history[i], v.key, v.salt);
  }

  // ---- runs ----

  ghost predicate Run(w: World, events: seq<Event>)
    decreases |events|
  {
    events != [] ==> Enabled(w, events[0]) && Run(Step(w, events[0]), events[1..])
  }

  ghost function After(w: World, events: seq<Event>): World
    requires Run(w, events)
    decreases |events|
  {
    if events == [] then w else After(Step(w, events[0]), events[1..])
  }

  lemma {:induction false} RunKeepsInv(w: World, events: seq<Event>)
    requires Inv(w) && Run(w, events)
    ensures Inv(After(w, events))
    ensures w.history <= After(w, events).history && w.log <= After(w, events).log
    ensures After(w, events).key == w.key && After(w, events).salt == w.salt
    decreases |events|
  {
    if events != [] {
      if events[0].Commit? {
        CommitKeepsInv(w, events[0].request);
      } else {
        DeviceStepKeepsInv(w, events[0]);
      }
      RunKeepsInv(Step(w, events[0]), events[1..]);
    }
  }

  ghost function ViewAt(w: World, i: nat): map<string, Secret>
    requires i < |w.history| && Intact(w.history[i], w.key, w.salt)
  {
    View(MapsAt(w, i), w.key)
  }

  function Edits(log: seq<Request>): seq<Edit> { seq(|log|, i requires 0 <= i < |log| => log[i].edit) }

  /**
   * No lost updates: in every run each committed revision is the one before it with exactly one admissible edit,
   * made by a device that already held the manifest of that revision when it began.
   */
  lemma NoLostUpdate(w: World, events: seq<Event>, i: nat)
    requires Init(w) && Run(w, events) && i < |After(w, events).log|
    ensures var z := After(w, events);
            && i + 1 < |z.history| && Intact(z.history[i], z.key, z.salt) && Intact(z.history[i + 1], z.key, z.salt)
            && z.log[i].seen == MapsAt(z, i).entries
            && Admissible(z.log[i].edit, MapsAt(z, i))
            && ViewAt(z, i + 1) == EditView(z.log[i].edit, ViewAt(z, i))
  {
    InitInv(w);
    RunKeepsInv(w, events);
    var z := After(w, events);
    assert OneEdit(z, z.log[i]);
    FollowsRefines(z.history[i], z.log[i].edit, z.history[i + 1], z.key, z.salt);
  }

  lemma HistoryIsChain(z: World)
    requires HistoryOk(z)
    ensures Chain(z.history, Edits(z.log), z.key, z.salt)
  {
    forall i | 0 <= i < |z.log| ensures Follows(z.history[i], Edits(z.log)[i], z.history[i + 1], z.key, z.salt) {
      assert OneEdit(z, z.log[i]);
    }
  }

  /** The vault refines a plain map: what is stored is the first map with all committed edits applied in order. */
  lemma VaultIsReplayOfLog(w: World, events: seq<Event>)
    requires Init(w) && Run(w, events)
    ensures var z := After(w, events);
            && |z.history| == |z.log| + 1 && Intact(w.history[0], w.key, w.salt) && Intact(z.history[|z.log|], z.key, z.salt)
            && ViewAt(z, |z.log|) == Replay(ViewAt(w, 0), Edits(z.log))
  {
    InitInv(w);
    RunKeepsInv(w, events);
    var z := After(w, events);
    HistoryIsChain(z);
    ChainReplays(z.history, Edits(z.log), |z.log|, z.key, z.salt);
    assert Edits(z.log)[..|z.log|] == Edits(z.log);
  }

  predicate Outstanding(w: World, d: int) { 0 <= d < |w.devices| && w.devices[d].phase.Sent? }

  /** Each call that still waits for an answer, and each that was answered with success, has a request of its own. */
  ghost predicate AnswersOk(w: World) {
    && (forall d | Outstanding(w, d) :: w.devices[d].phase.request.nonce < w.drawn)
    && (forall i | 0 <= i < |w.confirmed| :: w.confirmed[i].nonce < w.drawn && w.confirmed[i] in w.log)
    && (forall d, e | Outstanding(w, d) && Outstanding(w, e) && d != e ::
          w.devices[d].phase.request.nonce != w.devices[e].phase.request.nonce)
    && (forall d, i | Outstanding(w, d) && 0 <= i < |w.confirmed| :: w.devices[d].phase.request.nonce != w.confirmed[i].nonce)
    && (forall i, j | 0 <= i < j < |w.confirmed| :: w.confirmed[i].nonce != w.confirmed[j].nonce)
  }

  lemma StepKeepsAnswers(w: World, e: Event)
    requires Enabled(w, e) && AnswersOk(w)
    ensures AnswersOk(Step(w, e))
  {
    var v := Step(w, e);
    assert forall d | Outstanding(v, d) && !(e.Send? && d == e.d) ::
             Outstanding(w, d) && v.devices[d].phase.request == w.devices[d].phase.request;
  }

  lemma {:induction false} RunKeepsAnswers(w: World, events: seq<Event>)
    requires Run(w, events) && AnswersOk(w)
    ensures AnswersOk(After(w, events))
    decreases |events|
  {
    if events != [] {
      StepKeepsAnswers(w, events[0]);
      RunKeepsAnswers(Step(w, events[0]), events[1..]);
    }
  }

  /**
   * In every run, the calls answered with success have each made a revision of their own: the one directly after
   * the revision the call's tag names, and no other; two of them never share one, not even if they made equal edits.
   */
  lemma ConfirmedCallsHaveTheirOwnRevisions(w: World, events: seq<Event>)
    requires Init(w) && Run(w, events)
    ensures var z := After(w, events);
            && (forall i | 0 <= i < |z.confirmed| :: z.confirmed[i].tag < |z.log| && z.log[z.confirmed[i].tag] == z.confirmed[i])
            && (forall i, k | 0 <= i < |z.confirmed| && 0 <= k < |z.log| && z.log[k] == z.confirmed[i] :: k == z.confirmed[i].tag)
            && (forall i, j | 0 <= i < j < |z.confirmed| :: z.confirmed[i].tag != z.confirmed[j].tag)
  {
    var z := After(w, events);
    RunKeepsAnswers(w, events);
    assert HistoryOk(z) by {
      InitInv(w);
      RunKeepsInv(w, events);
    }
    forall i | 0 <= i < |z.confirmed| ensures z.confirmed[i].tag < |z.log| && z.log[z.confirmed[i].tag] == z.confirmed[i] {
      var k :| 0 <= k < |z.log| && z.log[k] == z.confirmed[i];
    }
  }

  /** A request whose tag has been overtaken is never committed later, however long it stays on the wire. */
  lemma OvertakenNeverCommits(w: World, events: seq<Event>, r: Request)
    requires Inv(w) && Run(w, events)
    requires r !in w.log && r.tag < |w.history| - 1
    ensures r !in After(w, events).log
  {
    RunKeepsInv(w, events);
    var z := After(w, events);
    assert forall i | 0 <= i < |z.log| && z.log[i] == r :: i == r.tag && z.log[i] == w.log[i];
  }

  /** Whatever happens, a cached pair is a revision of the server, and a failed call leaves the reloaded maps. */
  lemma CacheAndRollback(w: World, events: seq<Event>, d: nat)
    requires Init(w) && Run(w, events) && d < |After(w, events).devices|
    ensures var z := After(w, events); var device := z.devices[d];
            && CacheTrue(z, device)
            && (device.phase.Sent? ==>
                  var failed := Step(z, Fail(d)).devices[d];
                  failed.cache == device.cache && failed.cache.Some? &&
                  Load(failed.cache.value.1, z.key, z.salt) == Ok(failed.maps) && Faithful(failed.maps, z.key))
  {
    InitInv(w);
    RunKeepsInv(w, events);
    var z := After(w, events);
    assert CacheTrue(z, z.devices[d]) && PhaseOk(z, z.devices[d]);
    if z.devices[d].phase.Sent? {
      assert Intact(z.history[z.devices[d].cache.value.0], z.key, z.salt);
    }
  }

  /**
   * A call that has its snapshot takes over the maps of one revision, the cached one, which is at least as new as the
   * one that was current when the call began; only an edit whose device held
   * another manifest is refused instead, and leaves the maps alone.
   */
  lemma SnapshotIsTakenOver(w: World, events: seq<Event>, d: nat)
    requires Init(w) && Run(w, events) && Enabled(After(w, events), Open(d))
    ensures var z := After(w, events); var device := z.devices[d]; var after := Step(z, Open(d)).devices[d];
            && device.cache.Some? && device.phase.since <= device.cache.value.0 < |z.history|
            && Intact(z.history[device.cache.value.0], z.key, z.salt)
            && var m := MapsAt(z, device.cache.value.0);
               && after.cache == device.cache
               && if device.phase.editing && m.entries != device.maps.entries
                  then after.maps == device.maps && after.phase.Idle?
                  else after.maps == m && if device.phase.editing then after.phase == Loaded(m, device.maps.entries) else after.phase == Idle
  {
    InitInv(w);
    RunKeepsInv(w, events);
    var z := After(w, events);
    assert CacheTrue(z, z.devices[d]) && PhaseOk(z, z.devices[d]);
    assert Intact(z.history[z.devices[d].cache.value.0], z.key, z.salt);
  }

  /** In every reachable vault file manifest and sealed store are in bijection and every payload opens. */
  lemma EveryRevisionIntact(w: World, events: seq<Event>, i: nat)
    requires Init(w) && Run(w, events) && i < |After(w, events).history|
    ensures var z := After(w, events); Intact(z.history[i], z.key, z.salt) && VerifyAll(z.history[i], z.key)
  {
    InitInv(w);
    RunKeepsInv(w, events);
    var z := After(w, events);
    VerifyAllIffFaithful(z.history[i].envelope, z.key);
  }
}
