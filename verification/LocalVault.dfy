/** An unlocked vault handle over a local file or a cloud file, with its hand-written rollback. */
module LocalVault {
  import opened Basics
  import opened VaultFormat
  import opened VaultView
  import Drive

  const IDLE_TIMEOUT := 15 * 60

  /** A temporary name: the vault's own name with the random suffix that a replacement draws. */
  datatype Temp = Temp(path: string, suffix: string)

  /**
   * Files by path, and beside them the temporary files of replacements. A file is written piece by piece and may be
   * left partial; only a rename puts a whole file in the place of another at one stroke. `faults` counts what failed
   * for a reason outside this model.
   */
  class FileSystem {
    var files: map<string, File>
    var temps: map<Temp, File>
    ghost var faults: nat

    constructor ()
      ensures files == map[] && temps == map[]
    {
      files, temps, faults := map[], map[], 0;
    }

    /** Something outside this model fails, or does not. */
    method Fault() returns (failed: bool)
      modifies this`faults
      ensures faults == old(faults) + if failed then 1 else 0
    {
      failed := *;
      if failed {
        faults := faults + 1;
      }
    }

    method Read(path: string) returns (r: Result<File, VaultError>)
      modifies this`faults
      ensures old(faults) <= faults
      ensures r.Ok? ==> path in files && r.value == files[path]
      ensures r.Err? ==> r.error == Storage || r.error == Corrupt
      ensures r.Err? && faults == old(faults) ==> r.error == Storage && path !in files
    {
      if path !in files {
        return Err(Storage);
      }
      var failed := Fault();
      if failed {
        return Err(Storage);
      }
      var long := Fault();
      if long {
        return Err(Corrupt);
      }
      r := Ok(files[path]);
    }

    method CreateTemp(temp: Temp, data: File) returns (r: Result<(), VaultError>)
      modifies this`temps, this`faults
      ensures old(faults) <= faults && (r.Err? ==> old(faults) < faults)
      ensures r.Ok? ==> temp !in old(temps) && temps == old(temps)[temp := data]
      ensures r.Err? ==> r.error == Storage && temps - {temp} == old(temps) - {temp} && (temp in old(temps) ==> temps == old(temps))
    {
      if temp in temps {
        faults := faults + 1;
        return Err(Storage);
      }
      var stopped := Fault();
      if stopped {
        var partial: bool := *;
        temps := temps[temp := Garbage(partial)];
        return Err(Storage);
      }
      var refused := Fault();
      if refused {
        return Err(Storage);
      }
      temps := temps[temp := data];
      r := Ok(());
    }

    /** The one step that is atomic: it takes place whole or not at all. */
    method Rename(temp: Temp, path: string) returns (r: Result<(), VaultError>)
      modifies this
      ensures r.Ok? ==> temp in old(temps) && files == old(files)[path := old(temps)[temp]] && temps == old(temps) - {temp}
      ensures r.Err? ==> files == old(files) && temps == old(temps)
      ensures old(faults) <= faults && (r.Err? ==> r.error == Storage && (temp !in old(temps) || old(faults) < faults))
    {
      if temp !in temps {
        return Err(Storage);
      }
      var failed := Fault();
      if failed {
        return Err(Storage);
      }
      files, temps := files[path := temps[temp]], temps - {temp};
      r := Ok(());
    }

    method RemoveTemp(temp: Temp)
      modifies this`temps
      ensures temps == old(temps) || temps == old(temps) - {temp}
    {
      if * {
        temps := temps - {temp};
      }
    }

    /**
     * `moments` are the files after each step, so those a crash there leaves: as before, or with the whole new file
     * in its place. At most the temporary of this very call is left over.
     */
    method AtomicReplace(path: string, data: File)
      returns (r: Result<(), VaultError>, ghost moments: seq<map<string, File>>, ghost left: Temp)
      modifies this
      ensures r.Ok? ==> path in old(files) && files == old(files)[path := data] && temps == old(temps)
      ensures r.Err? ==> files == old(files)
      ensures moments != [] && moments[|moments| - 1] == files
      ensures forall m | m in moments :: m == old(files) || (path in old(files) && m == old(files)[path := data])
      ensures left.path == path && temps - {left} == old(temps) - {left}
      ensures old(faults) <= faults && (r.Err? ==> r.error == Storage && (path !in old(files) || old(faults) < faults))
    {
      moments := [files];
      var suffix: string := *;
      var temp := Temp(path, suffix);
      left := temp;
      if path !in files {
        return Err(Storage), moments, left;
      }
      r := CreateTemp(temp, data);
      moments := moments + [files];
      if r.Err? {
        return;
      }
      r := Rename(temp, path);
      moments := moments + [files];
      if r.Err? {
        RemoveTemp(temp);
        moments := moments + [files];
      }
    }

    method CreateNew(path: string, data: File) returns (r: Result<(), VaultError>)
      modifies this`files, this`faults
      ensures old(faults) <= faults
      ensures r.Ok? ==> path !in old(files) && files == old(files)[path := data]
      ensures r.Err? ==> r.error == Storage && files - {path} == old(files) - {path} && (path in old(files) ==> files == old(files))
      ensures r.Err? ==> path in old(files) || old(faults) < faults
    {
      if path in files {
        return Err(Storage);
      }
      var stopped := Fault();
      if stopped {
        var partial: bool := *;
        files := files[path := Garbage(partial)];
        return Err(Storage);
      }
      var refused := Fault();
      if refused {
        return Err(Storage);
      }
      files := files[path := data];
      r := Ok(());
    }
  }

  /** The errors of reading and opening a file; none speaks of an entry. */
  predicate OfStore(e: VaultError) {
    e.Storage? || e.Corrupt? || e.AuthenticationOrCorrupt? || e.Locked? || e.VersionConflict?
  }

  predicate HexVersion(v: string) {
    |v| == 32 && forall c | c in v :: AsciiDigit(c) || 'a' <= c <= 'f'
  }

  /** The undo steps of `put` restore both maps, whether or not the id was there before. */
  lemma PutUndone(m: Maps, key: Key, item: Item)
    requires item.version !in m.sealed && (forall id | id in m.entries :: m.entries[id].version in m.sealed)
    ensures var n := PutMaps(m, key, item);
            if item.id in m.entries then
              var meta := m.entries[item.id];
              m == Maps((n.entries - {item.id})[item.id := meta], (n.sealed - {item.version})[meta.version := m.sealed[meta.version]])
            else
              m == Maps(n.entries - {item.id}, n.sealed - {item.version})
  {
    var n := PutMaps(m, key, item);
    if item.id in m.entries {
      var meta := m.entries[item.id];
      assert m.entries == (n.entries - {item.id})[item.id := meta];
      assert m.sealed == (n.sealed - {item.version})[meta.version := m.sealed[meta.version]];
    } else {
      assert m.entries == n.entries - {item.id};
      assert m.sealed == n.sealed - {item.version};
    }
  }

  lemma RemoveUndone(m: Maps, id: string)
    requires id in m.entries && m.entries[id].version in m.sealed
    ensures var n := RemoveMaps(m, id);
            var meta := m.entries[id];
            m == Maps(n.entries[id := meta], n.sealed[meta.version := m.sealed[meta.version]])
  {
    var n := RemoveMaps(m, id);
    var meta := m.entries[id];
    assert m.entries == n.entries[id := meta];
    assert m.sealed == n.sealed[meta.version := m.sealed[meta.version]];
  }

  /** The items carry the batch, in order. */
  predicate Carries(items: seq<Item>, batch: seq<(string, Payload)>) {
    |items| == |batch| && forall i | 0 <= i < |items| :: items[i].id == batch[i].0 && items[i].payload == batch[i].1
  }

  function Ids(items: seq<Item>): seq<string> { seq(|items|, i requires 0 <= i < |items| => items[i].id) }

  function DrawnVersions(items: seq<Item>): seq<string> { seq(|items|, i requires 0 <= i < |items| => items[i].version) }

  /** `now` is `base` with the given keys on top, none of which was there before. */
  ghost predicate OnTop<V>(base: map<string, V>, now: map<string, V>, keys: seq<string>) {
    && (forall k | k in base :: k in now && now[k] == base[k])
    && (forall k | k in now :: k in base || k in keys)
    && (forall k | k in keys :: k in now && k !in base)
  }

  lemma AddLast<V>(base: map<string, V>, now: map<string, V>, keys: seq<string>, k: string, v: V)
    requires OnTop(base, now, keys) && k !in base
    ensures OnTop(base, now[k := v], keys + [k])
  {
  }

  lemma DropFirst<V>(base: map<string, V>, now: map<string, V>, keys: seq<string>)
    requires OnTop(base, now, keys) && keys != [] && keys[0] !in keys[1..]
    ensures OnTop(base, now - {keys[0]}, keys[1..])
  {
    assert keys == [keys[0]] + keys[1..];
  }

  lemma NothingOnTop<V>(base: map<string, V>, now: map<string, V>)
    requires OnTop(base, now, [])
    ensures now == base
  {
  }

  /** An import stacks its ids and versions on the two maps. */
  lemma {:induction false} ImportStacks(m: Maps, key: Key, items: seq<Item>)
    requires NewItems(items, m)
    ensures OnTop(m.entries, ImportMaps(m, key, items).entries, Ids(items))
    ensures OnTop(m.sealed, ImportMaps(m, key, items).sealed, DrawnVersions(items))
  {
    if items != [] {
      var last := |items| - 1;
      var init, item := items[..last], items[last];
      ImportStacks(m, key, init);
      StackOne(m, ImportMaps(m, key, init), key, init, item);
      assert init + [item] == items;
    }
  }

  lemma StackOne(m: Maps, before: Maps, key: Key, init: seq<Item>, item: Item)
    requires OnTop(m.entries, before.entries, Ids(init)) && OnTop(m.sealed, before.sealed, DrawnVersions(init))
    requires item.id !in m.entries && item.version !in m.sealed
    ensures OnTop(m.entries, before.entries[item.id := MetaOf(item)], Ids(init + [item]))
    ensures OnTop(m.sealed, before.sealed[item.version := BoxOf(item, key)], DrawnVersions(init + [item]))
  {
    AddLast(m.entries, before.entries, Ids(init), item.id, MetaOf(item));
    AddLast(m.sealed, before.sealed, DrawnVersions(init), item.version, BoxOf(item, key));
    assert Ids(init + [item]) == Ids(init) + [item.id];
    assert DrawnVersions(init + [item]) == DrawnVersions(init) + [item.version];
  }

  /** An import pairs its ids and versions as they were drawn. */
  lemma {:induction false} ImportPairs(m: Maps, key: Key, items: seq<Item>, i: nat)
    requires NewItems(items, m) && i < |items|
    ensures items[i].id in ImportMaps(m, key, items).entries
    ensures ImportMaps(m, key, items).entries[items[i].id].version == items[i].version
  {
    var last := |items| - 1;
    if i < last {
      ImportPairs(m, key, items[..last], i);
    }
  }

  class Vault {
    const path: string
    const disk: FileSystem
    const remote: Drive.RemoteFile?
    const salt: string
    var key: Key
    var entries: map<string, EntryMeta>
    var sealed: map<string, Box<Bytes>>
    var lastUsed: nat

    ghost function Footprint(): set<object> {
      {this, disk} + if remote == null then {} else {remote, remote.server}
    }

    ghost predicate Valid()
      reads Footprint()
    {
      remote != null ==> remote.Valid()
    }

    function Held(): Maps
      reads this
    {
      Maps(entries, sealed)
    }

    /** The handle after the idle timeout: no key and no maps. */
    ghost predicate Cleared()
      reads this
    {
      key == Zeroed && Held() == EMPTY
    }

    /** Other clients of a cloud vault may have committed revisions meanwhile; no vault file moved. */
    twostate predicate StoresKept()
      reads Footprint()
    {
      disk.files == old(disk.files) && (remote != null ==> old(remote.server.history) <= remote.server.history)
    }

    /** The edit was made on `base`, the maps then in the store, and its result was put in their place. */
    twostate predicate Committed(edit: Edit, base: Maps)
      reads Footprint()
    {
      && key == old(key)
      && Admissible(edit, base)
      && Held() == EditMaps(edit, base, key)
      && if remote == null then
           && path in old(disk.files)
           && Load(old(disk.files)[path], key, salt) == Ok(base)
           && disk.files == old(disk.files)[path := EncodeFile(Held(), key, salt)]
         else
           && base.entries == old(entries)
           && old(remote.server.history) <= remote.server.history
           && exists i :: 0 < i < |remote.server.history| && |old(remote.server.history)| <= i
                          && Load(remote.server.history[i - 1].file, key, salt) == Ok(base)
                          && remote.server.history[i].file == EncodeFile(Held(), key, salt)
    }

    /** The two maps are exactly those of the file that was read; a cloud file was current at some moment of the call. */
    twostate predicate JustReloaded()
      reads Footprint()
    {
      && key == old(key)
      && if remote == null then
           path in old(disk.files) && Load(old(disk.files)[path], key, salt) == Ok(Held())
         else
           && old(remote.server.history) <= remote.server.history
           && exists i :: |old(remote.server.history)| - 1 <= i < |remote.server.history| && 0 <= i
                          && Load(remote.server.history[i].file, key, salt) == Ok(Held())
    }

    /** After a refused edit memory is as before, as just reloaded, or cleared, and a local file is as before. */
    twostate predicate RolledBack()
      reads Footprint()
    {
      && StoresKept()
      && (Held() == old(Held()) || JustReloaded() || Cleared())
    }

    /** Nothing outside failed, and no other client wrote a cloud vault. */
    twostate predicate Undisturbed()
      reads Footprint()
    {
      disk.faults == old(disk.faults) && (remote != null ==> remote.server.Quiet())
    }

    /** Faults are only ever added. */
    twostate predicate FaultsGrow()
      reads Footprint()
    {
      old(disk.faults) <= disk.faults && (remote != null ==> old(remote.server.faults) <= remote.server.faults)
    }

    /** What the store holds for this key. */
    ghost function Stored(): Result<Maps, VaultError>
      requires Valid()
      reads Footprint()
    {
      if remote == null then
        if path !in disk.files then Err(Storage) else Load(disk.files[path], key, salt)
      else if !Drive.AcceptedEtag(remote.server.Current().etag) then Err(Corrupt)
      else Load(remote.server.Current().file, key, salt)
    }

    /** A reload that finds these maps, or this reason. */
    ghost predicate Answers(r: Result<(), VaultError>, found: Result<Maps, VaultError>)
      reads this
    {
      if r.Ok? then found == Ok(Held()) else found == Err(r.error)
    }

    ghost predicate Idle(now: nat)
      reads this
    {
      now >= lastUsed + IDLE_TIMEOUT
    }

    /** The maps that an edit is made on, or why there are none. */
    ghost function EditBase(): Result<Maps, VaultError>
      requires Valid()
      reads Footprint()
    {
      match Stored()
      case Err(e) => Err(e)
      case Ok(m) => if remote != null && m.entries != entries then Err(VersionConflict) else Ok(m)
    }

    constructor Open(path: string, disk: FileSystem, remote: Drive.RemoteFile?, salt: string, key: Key, maps: Maps, now: nat)
      ensures this.path == path && this.disk == disk && this.remote == remote && this.salt == salt
      ensures this.key == key && Held() == maps && lastUsed == now
    {
      this.path, this.disk, this.remote, this.salt := path, disk, remote, salt;
      this.key, this.entries, this.sealed, this.lastUsed := key, maps.entries, maps.sealed, now;
    }

    method CheckActive(now: nat) returns (r: Result<(), VaultError>)
      modifies this
      ensures r.Ok? ==> now < old(lastUsed) + IDLE_TIMEOUT && key == old(key) && Held() == old(Held())
      ensures r.Err? ==> now >= old(lastUsed) + IDLE_TIMEOUT && r.error == Locked && Cleared()
      ensures lastUsed == old(lastUsed)
    {
      if now >= lastUsed + IDLE_TIMEOUT {
        key, entries, sealed := Zeroed, map[], map[];
        return Err(Locked);
      }
      r := Ok(());
    }

    method Touch(now: nat) returns (r: Result<(), VaultError>)
      modifies this
      ensures r.Ok? ==> now < old(lastUsed) + IDLE_TIMEOUT && key == old(key) && Held() == old(Held()) && lastUsed == now
      ensures r.Err? ==> now >= old(lastUsed) + IDLE_TIMEOUT && r.error == Locked && Cleared()
    {
      r := CheckActive(now);
      if r.Ok? {
        lastUsed := now;
      }
    }

    method ReadCiphertext() returns (r: Result<File, VaultError>)
      requires Valid()
      modifies Footprint() - {this, disk}, disk`faults
      ensures Valid() && StoresKept() && FaultsGrow()
      ensures r.Err? ==> OfStore(r.error) && (remote == null ==> r.error in {Storage, Corrupt})
      ensures r.Err? && Undisturbed() ==> old(Stored()) == Err(r.error)
      ensures r.Ok? && Undisturbed() ==> old(Stored()) == Load(r.value, key, salt)
      ensures r.Ok? ==> if remote == null then path in disk.files && r.value == disk.files[path]
                        else remote.cache.Some? && remote.cache.value.file == r.value
      ensures r.Ok? && remote != null ==>
                exists i :: |old(remote.server.history)| - 1 <= i < |remote.server.history| && 0 <= i &&
                            remote.server.history[i] == remote.cache.value
      ensures r.Err? && remote != null ==> remote.cache == old(remote.cache)
    {
      if remote == null {
        r := disk.Read(path);
      } else {
        var answer := remote.ReadRemote();
        r := if answer.Ok? then Ok(answer.value) else Err(Drive.ToVaultError(answer.error));
      }
    }

    /** What a reload makes of the bytes it has read. */
    method TakeMaps(data: File, rejectRemoteChanges: bool) returns (r: Result<(), VaultError>)
      modifies this`entries, this`sealed
      ensures match Load(data, key, salt)
              case Err(e) => r == Err(e)
              case Ok(m) =>
                if remote != null && rejectRemoteChanges && m.entries != old(entries) then r == Err(VersionConflict)
                else r == Ok(()) && Held() == m
      ensures r.Err? ==> Held() == old(Held())
    {
      var loaded := Load(data, key, salt);
      if loaded.Err? {
        return Err(loaded.error);
      }
      if remote != null && rejectRemoteChanges && loaded.value.entries != entries {
        return Err(VersionConflict);
      }
      entries, sealed := loaded.value.entries, loaded.value.sealed;
      r := Ok(());
    }

    /** On success the maps are those of the file; a cloud edit also insists that the manifest is the one held. */
    method Reload(rejectRemoteChanges: bool) returns (r: Result<(), VaultError>)
      requires Valid()
      modifies Footprint() - {disk}, disk`faults
      ensures Valid() && StoresKept() && FaultsGrow() && key == old(key) && lastUsed == old(lastUsed)
      ensures r.Err? ==> OfStore(r.error)
      ensures r.Err? && remote == null ==> r.error in {Storage, Corrupt, AuthenticationOrCorrupt}
      ensures Undisturbed() && !rejectRemoteChanges ==> Answers(r, old(Stored()))
      ensures Undisturbed() && rejectRemoteChanges ==> Answers(r, old(EditBase()))
      ensures r.Ok? && remote != null ==>
                exists i :: |old(remote.server.history)| - 1 <= i < |remote.server.history| && 0 <= i &&
                            remote.cache == Some(remote.server.history[i])
      ensures r.Ok? ==> JustReloaded()
      ensures r.Ok? && remote != null ==>
                remote.cache.Some? && Load(remote.cache.value.file, key, salt) == Ok(Held()) &&
                (rejectRemoteChanges ==> entries == old(entries))
      ensures r.Err? ==> Held() == old(Held())
    {
      var data := ReadCiphertext();
      if data.Err? {
        return Err(data.error);
      }
      r := TakeMaps(data.value, rejectRemoteChanges);
    }

    /** Writes the held maps; an oversized encoding is refused before anything is written. */
    method Persist() returns (r: Result<(), VaultError>)
      requires Valid()
      modifies Footprint() - {this}
      ensures Valid() && FaultsGrow()
      ensures r.Err? ==> StoresKept()
      ensures r.Err? ==> OfStore(r.error) || r.error.InvalidInput?
      ensures r.Err? && remote == null ==> r.error in {Storage, InvalidInput}
      ensures r.Err? && Undisturbed() ==> !old(Writable()) && r.error == if remote == null then Storage else VersionConflict
      ensures r.Ok? && remote == null ==>
                path in old(disk.files) && disk.files == old(disk.files)[path := EncodeFile(Held(), key, salt)]
      ensures r.Ok? && remote != null ==>
                disk.files == old(disk.files) && old(remote.server.history) <= remote.server.history &&
                old(remote.cache).Some? &&
                exists i :: |old(remote.server.history)| <= i < |remote.server.history| &&
                            remote.server.history[i - 1] == old(remote.cache).value &&
                            remote.server.history[i].file == EncodeFile(Held(), key, salt)
    {
      var long := disk.Fault();
      if long {
        return Err(InvalidInput);
      }
      var data := EncodeFile(Held(), key, salt);
      if remote == null {
        ghost var moments, left;
        r, moments, left := disk.AtomicReplace(path, data);
      } else {
        var answer := remote.WriteRemote(data);
        r := if answer.Ok? then Ok(()) else Err(Drive.ToVaultError(answer.error));
      }
    }

    /** A write can only fail for a reason outside, or because another client has overtaken it. */
    ghost predicate Writable()
      requires Valid()
      reads Footprint()
    {
      if remote == null then path in disk.files else remote.cache == Some(remote.server.Current())
    }

    /** The maps held came from the store, and for a cloud vault from the revision now cached. */
    ghost predicate Fresh()
      reads Footprint()
    {
      && ManifestAccepted(entries, sealed)
      && (remote != null ==> remote.cache.Some? && Load(remote.cache.value.file, key, salt) == Ok(Held()))
    }

    /** The held maps were written over the file, or over the cached revision. */
    twostate predicate Saved()
      reads Footprint()
    {
      && key == old(key)
      && if remote == null then
           path in old(disk.files) && disk.files == old(disk.files)[path := EncodeFile(Held(), key, salt)]
         else
           && old(remote.server.history) <= remote.server.history
           && old(remote.cache).Some?
           && exists i :: |old(remote.server.history)| <= i < |remote.server.history| && 0 < i
                          && remote.server.history[i - 1] == old(remote.cache).value
                          && remote.server.history[i].file == EncodeFile(Held(), key, salt)
    }

    /** The lock file is opened, then the maps are reloaded under it. */
    method LockAndReload() returns (r: Result<(), VaultError>)
      requires Valid()
      modifies Footprint() - {disk}, disk`faults
      ensures Valid() && StoresKept() && FaultsGrow() && key == old(key)
      ensures r.Ok? ==> Fresh() && JustReloaded() && (remote != null ==> entries == old(entries))
      ensures r.Err? ==> Held() == old(Held()) && r.error !in {MissingEntry, AlreadyExists, InvalidInput}
      ensures Undisturbed() ==> Answers(r, old(EditBase())) && (r.Ok? ==> Writable())
    {
      var refused := disk.Fault();
      if refused {
        return Err(Storage);
      }
      r := Reload(true);
    }

    /** The undo of `put`, with what it took out of the two maps in hand. */
    method UndoPut(item: Item, oldMeta: Option<EntryMeta>, oldSealed: Option<Box<Bytes>>, ghost base: Maps)
      requires Held() == PutMaps(base, key, item) && item.version !in base.sealed && ManifestAccepted(base.entries, base.sealed)
      requires if item.id in base.entries then
                 oldMeta == Some(base.entries[item.id]) && oldSealed == Some(base.sealed[base.entries[item.id].version])
               else
                 oldMeta == None && oldSealed == None
      modifies this`entries, this`sealed
      ensures Held() == base
    {
      sealed := sealed - {item.version};
      entries := entries - {item.id};
      if oldMeta.Some? {
        if oldSealed.Some? {
          sealed := sealed[oldMeta.value.version := oldSealed.value];
        }
        entries := entries[item.id := oldMeta.value];
      }
      PutUndone(base, key, item);
    }

    /** The edit step of `put`: change both maps, write, and undo both changes by hand if the write fails. */
    method SavePut(item: Item) returns (r: Result<(), VaultError>)
      requires Valid() && Fresh() && item.version !in sealed
      modifies Footprint()
      ensures Valid() && FaultsGrow()
      ensures r.Err? ==> r.error !in {MissingEntry, AlreadyExists} && (Undisturbed() ==> !old(Writable()))
      ensures r.Ok? ==> Held() == PutMaps(old(Held()), key, item) && Saved()
      ensures r.Err? ==> Held() == old(Held()) && key == old(key) && StoresKept()
    {
      var id, version := item.id, item.version;
      var oldMeta := if id in entries then Some(entries[id]) else None;
      entries := entries[id := EntryMeta(item.payload.kind, version)];
      var oldSealed := if oldMeta.Some? && oldMeta.value.version in sealed then Some(sealed[oldMeta.value.version]) else None;
      if oldMeta.Some? {
        sealed := sealed - {oldMeta.value.version};
      }
      sealed := sealed[version := SealPayload(key, id, version, item.payload.bytes)];
      r := Persist();
      if r.Err? {
        UndoPut(item, oldMeta, oldSealed, old(Held()));
      }
    }

    /** `put` after its reload: a version no sealed entry has, then the edit step. */
    method PutLoaded(id: string, payload: Payload) returns (r: Result<string, VaultError>)
      requires Valid() && Fresh()
      modifies Footprint()
      ensures Valid() && FaultsGrow()
      ensures r.Err? ==> r.error !in {MissingEntry, AlreadyExists} && (Undisturbed() ==> !old(Writable()))
      ensures r.Ok? ==> HexVersion(r.value) && SafeVersion(r.value) && r.value !in old(sealed)
      ensures r.Ok? ==> Held() == PutMaps(old(Held()), key, Item(id, payload, r.value)) && Saved()
      ensures r.Err? ==> Held() == old(Held()) && key == old(key) && StoresKept()
    {
      var version: string := *;
      if !HexVersion(version) || version in sealed {
        disk.faults := disk.faults + 1; // the program draws again
        return Err(Storage);
      }
      assert SafeVersion(version);
      var saved := SavePut(Item(id, payload, version));
      if saved.Err? {
        return Err(saved.error);
      }
      r := Ok(version);
    }

    /** `put` once its arguments are accepted: reload, change, write. */
    method PutAccepted(id: string, payload: Payload) returns (r: Result<string, VaultError>, ghost base: Maps)
      requires Valid() && SafeLabel(id) && |payload.bytes| <= MAX_PAYLOAD
      modifies Footprint()
      ensures Valid() && FaultsGrow()
      ensures r.Err? ==> r.error !in {MissingEntry, AlreadyExists}
      ensures r.Err? && Undisturbed() ==> old(EditBase()) == Err(r.error)
      ensures r.Ok? ==> HexVersion(r.value) && Committed(Edit.Put(Item(id, payload, r.value)), base)
      ensures r.Err? ==> RolledBack()
    {
      base := Held();
      var reloaded := LockAndReload();
      if reloaded.Err? {
        return Err(reloaded.error), base;
      }
      base := Held();
      r := PutLoaded(id, payload);
    }

    method Put(id: string, payload: Payload, now: nat) returns (r: Result<string, VaultError>, ghost base: Maps)
      requires Valid()
      modifies Footprint()
      ensures Valid() && FaultsGrow()
      ensures r.Err? ==> r.error !in {MissingEntry, AlreadyExists}
      ensures r.Err? && Undisturbed() ==>
                if old(Idle(now)) then r.error == Locked
                else if !SafeLabel(id) || |payload.bytes| > MAX_PAYLOAD then r.error == InvalidInput
                else old(EditBase()) == Err(r.error)
      ensures r.Ok? ==> HexVersion(r.value) && Committed(Edit.Put(Item(id, payload, r.value)), base)
      ensures r.Err? ==> RolledBack()
    {
      base := Held();
      var active := Touch(now);
      if active.Err? {
        return Err(active.error), base;
      }
      if !SafeLabel(id) || |payload.bytes| > MAX_PAYLOAD {
        return Err(InvalidInput), base;
      }
      r, base := PutAccepted(id, payload);
    }

    /** The undo of `remove`. */
    method UndoRemove(id: string, meta: EntryMeta, payload: Box<Bytes>, ghost base: Maps)
      requires id in base.entries && meta == base.entries[id] && meta.version in base.sealed && payload == base.sealed[meta.version]
      requires Held() == RemoveMaps(base, id)
      modifies this`entries, this`sealed
      ensures Held() == base
    {
      sealed := sealed[meta.version := payload];
      entries := entries[id := meta];
      RemoveUndone(base, id);
    }

    /** The edit step of `remove`, with its undo. */
    method SaveRemove(id: string) returns (r: Result<(), VaultError>)
      requires Valid() && Fresh() && id in entries
      modifies Footprint()
      ensures Valid() && FaultsGrow()
      ensures r.Err? ==> r.error !in {MissingEntry, AlreadyExists} && (Undisturbed() ==> !old(Writable()))
      ensures r.Ok? ==> Held() == RemoveMaps(old(Held()), id) && Saved()
      ensures r.Err? ==> Held() == old(Held()) && key == old(key) && StoresKept()
    {
      var meta := entries[id];
      entries := entries - {id};
      assert EntryAccepted(id, meta, sealed);
      var payload := sealed[meta.version]; // so `remove` never answers Corrupt here
      sealed := sealed - {meta.version};
      r := Persist();
      if r.Err? {
        UndoRemove(id, meta, payload, old(Held()));
      }
    }

    /** `remove` after its reload. */
    method RemoveLoaded(id: string) returns (r: Result<(), VaultError>)
      requires Valid() && Fresh()
      modifies Footprint()
      ensures Valid() && FaultsGrow()
      ensures r.Ok? ==> id in old(entries) && Held() == RemoveMaps(old(Held()), id) && Saved()
      ensures r.Err? ==> Held() == old(Held()) && key == old(key) && StoresKept() && r.error != AlreadyExists
      ensures r == Err(MissingEntry) <==> id !in old(entries)
      ensures r.Err? && Undisturbed() && old(Writable()) ==> r.error == MissingEntry
    {
      if id !in entries {
        return Err(MissingEntry);
      }
      r := SaveRemove(id);
    }

    /** `remove` of an active handle. */
    method RemoveActive(id: string) returns (r: Result<(), VaultError>, ghost base: Maps)
      requires Valid()
      modifies Footprint()
      ensures Valid() && FaultsGrow()
      ensures r.Ok? ==> Committed(Edit.Remove(id), base)
      ensures r.Err? ==> RolledBack() && r.error != AlreadyExists
      ensures r == Err(MissingEntry) ==> JustReloaded() && id !in entries
      ensures r.Err? && Undisturbed() ==>
                match old(EditBase())
                case Err(e) => r.error == e
                case Ok(m) => r.error == MissingEntry && id !in m.entries
    {
      base := Held();
      r := LockAndReload();
      if r.Err? {
        return;
      }
      base := Held();
      r := RemoveLoaded(id);
    }

    method Remove(id: string, now: nat) returns (r: Result<(), VaultError>, ghost base: Maps)
      requires Valid()
      modifies Footprint()
      ensures Valid() && FaultsGrow()
      ensures r.Ok? ==> Committed(Edit.Remove(id), base)
      ensures r.Err? ==> RolledBack() && r.error != AlreadyExists
      ensures r == Err(MissingEntry) ==> JustReloaded() && id !in entries
      ensures r.Err? && Undisturbed() ==>
                if old(Idle(now)) then r.error == Locked
                else match old(EditBase())
                     case Err(e) => r.error == e
                     case Ok(m) => r.error == MissingEntry && id !in m.entries
    {
      base := Held();
      r := Touch(now);
      if r.Ok? {
        r, base := RemoveActive(id);
      }
    }

    /** The batches that `import_new` accepts beside the entries held. */
    predicate Importable(batch: seq<(string, Payload)>, held: map<string, EntryMeta>) {
      && 0 < |batch| <= MAX_IMPORT
      && (forall i | 0 <= i < |batch| :: SafeLabel(batch[i].0) && |batch[i].1.bytes| <= MAX_PAYLOAD && batch[i].0 !in held)
      && (forall i, j | 0 <= i < j < |batch| :: batch[i].0 != batch[j].0)
    }

    /** The checking loop of `import_new`: every id is safe, new and unrepeated, and gets its own fresh version. */
    method DrawItems(batch: seq<(string, Payload)>) returns (r: Result<seq<Item>, VaultError>)
      ensures r.Ok? ==> 0 < |batch| <= MAX_IMPORT && Carries(r.value, batch) && NewItems(r.value, Held())
      modifies disk`faults
      ensures old(disk.faults) <= disk.faults
      ensures r == Err(AlreadyExists) ==> exists i :: 0 <= i < |batch| && batch[i].0 in entries
      ensures r.Err? ==> r.error in {InvalidInput, AlreadyExists, Storage}
      ensures r.Err? && disk.faults == old(disk.faults) ==> r.error != Storage && !Importable(batch, entries)
    {
      if batch == [] || |batch| > MAX_IMPORT {
        return Err(InvalidInput);
      }
      var items: seq<Item> := [];
      var ids: set<string>, versions: set<string> := {}, {};
      for k := 0 to |batch|
        invariant Carries(items, batch[..k]) && NewItems(items, Held())
        invariant forall i | 0 <= i < k :: items[i].id in ids && items[i].version in versions
        invariant forall id | id in ids :: exists i :: 0 <= i < k && batch[i].0 == id
        invariant disk.faults == old(disk.faults)
      {
        var (id, payload) := batch[k];
        if !SafeLabel(id) || id in ids || |payload.bytes| > MAX_PAYLOAD {
          return Err(InvalidInput);
        }
        ids := ids + {id};
        if id in entries {
          return Err(AlreadyExists);
        }
        var version: string := *;
        if !HexVersion(version) || version in sealed || version in versions {
          disk.faults := disk.faults + 1; // the program draws again
          return Err(Storage);
        }
        versions := versions + {version};
        items := items + [Item(id, payload, version)];
      }
      assert batch[..|batch|] == batch;
      r := Ok(items);
    }

    /** The edit step of `import_new`: insert every item, write once, and take every item out again if that fails. */
    method SaveImport(items: seq<Item>) returns (r: Result<(), VaultError>)
      requires Valid() && Fresh() && NewItems(items, Held())
      modifies Footprint()
      ensures Valid() && FaultsGrow()
      ensures r.Err? ==> r.error !in {MissingEntry, AlreadyExists} && (Undisturbed() ==> !old(Writable()))
      ensures r.Ok? ==> Held() == ImportMaps(old(Held()), key, items) && Saved()
      ensures r.Err? ==> Held() == old(Held()) && key == old(key) && StoresKept()
    {
      ghost var base := Held();
      PutIn(items);
      r := Persist();
      if r.Err? {
        TakeOut(items, base);
      }
    }

    method PutIn(items: seq<Item>)
      modifies this`entries, this`sealed
      ensures Held() == ImportMaps(old(Held()), key, items)
    {
      for k := 0 to |items|
        modifies this`entries, this`sealed
        invariant Held() == ImportMaps(old(Held()), key, items[..k])
      {
        assert items[..k + 1][..k] == items[..k];
        sealed := sealed[items[k].version := SealPayload(key, items[k].id, items[k].version, items[k].payload.bytes)];
        entries := entries[items[k].id := EntryMeta(items[k].payload.kind, items[k].version)];
      }
      assert items[..|items|] == items;
    }

    method TakeOut(items: seq<Item>, ghost base: Maps)
      requires NewItems(items, base) && Held() == ImportMaps(base, key, items)
      modifies this`entries, this`sealed
      ensures Held() == base
    {
      ImportStacks(base, key, items);
      forall i | 0 <= i < |items|
        ensures items[i].id in entries && entries[items[i].id].version == items[i].version
      {
        ImportPairs(base, key, items, i);
      }
      assert Ids(items)[0..] == Ids(items) && DrawnVersions(items)[0..] == DrawnVersions(items);
      for k := 0 to |items|
        invariant OnTop(base.entries, entries, Ids(items)[k..])
        invariant OnTop(base.sealed, sealed, DrawnVersions(items)[k..])
        invariant forall i | k <= i < |items| :: items[i].id in entries && entries[items[i].id].version == items[i].version
      {
        TakeOutOne(items, k, base);
      }
      NothingOnTop(base.entries, entries);
      NothingOnTop(base.sealed, sealed);
    }

    /** One turn of the undo loop. */
    method TakeOutOne(items: seq<Item>, k: nat, ghost base: Maps)
      requires NewItems(items, base) && k < |items|
      requires OnTop(base.entries, entries, Ids(items)[k..]) && OnTop(base.sealed, sealed, DrawnVersions(items)[k..])
      requires items[k].id in entries && entries[items[k].id].version == items[k].version
      modifies this`entries, this`sealed
      ensures entries == old(entries) - {items[k].id}
      ensures OnTop(base.entries, entries, Ids(items)[k + 1..])
      ensures OnTop(base.sealed, sealed, DrawnVersions(items)[k + 1..])
    {
      assert Ids(items)[k..][1..] == Ids(items)[k + 1..];
      assert DrawnVersions(items)[k..][1..] == DrawnVersions(items)[k + 1..];
      DropFirst(base.entries, entries, Ids(items)[k..]);
      DropFirst(base.sealed, sealed, DrawnVersions(items)[k..]);
      if items[k].id in entries {
        var meta := entries[items[k].id];
        entries := entries - {items[k].id};
        sealed := sealed - {meta.version};
      }
    }

    /** `import_new` after its reload: all items or none. */
    method ImportLoaded(batch: seq<(string, Payload)>) returns (r: Result<(), VaultError>, ghost items: seq<Item>)
      requires Valid() && Fresh()
      modifies Footprint()
      ensures Valid() && FaultsGrow()
      ensures r.Err? ==> r.error != MissingEntry
      ensures r == Err(AlreadyExists) ==> exists i :: 0 <= i < |batch| && batch[i].0 in entries
      ensures r.Err? && Undisturbed() && old(Writable()) ==>
                r.error in {InvalidInput, AlreadyExists} && !Importable(batch, old(entries))
      ensures r.Ok? ==> Carries(items, batch) && Admissible(Edit.Import(items), old(Held()))
      ensures r.Ok? ==> Held() == ImportMaps(old(Held()), key, items) && Saved()
      ensures r.Err? ==> Held() == old(Held()) && key == old(key) && StoresKept()
    {
      items := [];
      var drawn := DrawItems(batch);
      if drawn.Err? {
        return Err(drawn.error), items;
      }
      items := drawn.value;
      r := SaveImport(drawn.value);
    }

    method ImportNew(batch: seq<(string, Payload)>, now: nat)
      returns (r: Result<(), VaultError>, ghost base: Maps, ghost items: seq<Item>)
      requires Valid()
      modifies Footprint()
      ensures Valid() && FaultsGrow()
      ensures r.Err? ==> r.error != MissingEntry
      ensures r == Err(AlreadyExists) ==> JustReloaded() && exists i :: 0 <= i < |batch| && batch[i].0 in entries
      ensures r.Err? && Undisturbed() ==>
                if old(Idle(now)) then r.error == Locked
                else match old(EditBase())
                     case Err(e) => r.error == e
                     case Ok(m) => r.error in {InvalidInput, AlreadyExists} && !Importable(batch, m.entries)
      ensures r.Ok? ==> Carries(items, batch) && Committed(Edit.Import(items), base)
      ensures r.Err? ==> RolledBack()
    {
      base, items := Held(), [];
      var active := Touch(now);
      if active.Err? {
        return Err(active.error), base, items;
      }
      var reloaded := LockAndReload();
      if reloaded.Err? {
        return Err(reloaded.error), base, items;
      }
      base := Held();
      r, items := ImportLoaded(batch);
    }

    /**
     * A read: whatever it says about an entry it says from reloaded maps, and no store is touched. Undisturbed, an
     * active handle answers from the maps in the store.
     */
    method Get(id: string, version: string, now: nat) returns (r: Result<Payload, VaultError>, ghost reloaded: bool)
      requires Valid()
      modifies Footprint() - {disk}, disk`faults
      ensures Valid() && StoresKept() && FaultsGrow()
      ensures reloaded ==> JustReloaded() && r == GetValue(Held(), key, id, version)
      ensures !reloaded ==> r.Err? && (Held() == old(Held()) || Cleared())
      ensures r.Ok? || r == Err(MissingEntry) ==> reloaded
      ensures remote == null && r == Err(VersionConflict) ==> reloaded
      ensures remote == null ==> (r == Err(Locked) <==> old(Idle(now)))
      ensures Undisturbed() ==>
                r == if old(Idle(now)) then Err(Locked)
                     else match old(Stored())
                          case Err(e) => Err(e)
                          case Ok(m) => GetValue(m, old(key), id, version)
    {
      reloaded := false;
      var active := Touch(now);
      if active.Err? {
        return Err(active.error), false;
      }
      var answer := Reload(false);
      if answer.Err? {
        return Err(answer.error), false;
      }
      r, reloaded := GetValue(Held(), key, id, version), true;
    }

    /** The copying of `backup`: the bytes are copied only if they verify in full. */
    method CopyVerified(destination: string, data: File) returns (r: Result<(), VaultError>)
      modifies disk`files, disk`faults
      ensures old(disk.faults) <= disk.faults
      ensures r.Err? && disk.faults == old(disk.faults) ==> destination in old(disk.files) || !VerifyAll(data, key)
      ensures r.Ok? ==> destination !in old(disk.files) && disk.files == old(disk.files)[destination := data] && VerifyAll(data, key)
      ensures disk.files - {destination} == old(disk.files) - {destination}
      ensures r != Err(AlreadyExists)
    {
      if !VerifyAll(data, key) {
        return Err(Corrupt);
      }
      r := disk.CreateNew(destination, data);
    }

    /**
     * `backup`: only a fully verified file is copied, byte for byte, to a path that was free: the local file, or a
     * revision that was the server's current one at some moment of the call.
     */
    method Backup(destination: string, now: nat) returns (r: Result<(), VaultError>)
      requires Valid()
      modifies Footprint()
      ensures Valid() && FaultsGrow() && (r.Ok? ==> key == old(key))
      ensures r.Ok? ==> destination != path && destination !in old(disk.files) &&
                        destination in disk.files && VerifyAll(disk.files[destination], key)
      ensures r.Ok? && remote == null ==> path in old(disk.files) && disk.files == old(disk.files)[destination := old(disk.files)[path]]
      ensures r.Ok? && remote != null ==>
                exists i :: |old(remote.server.history)| - 1 <= i < |remote.server.history| && 0 <= i &&
                            disk.files == old(disk.files)[destination := remote.server.history[i].file]
      ensures disk.files - {destination} == old(disk.files) - {destination}
      ensures destination == path || destination in old(disk.files) ==> r.Err? && disk.files == old(disk.files)
      ensures r == Err(AlreadyExists) ==> disk.files == old(disk.files)
      ensures r.Err? && Undisturbed() ==>
                || old(Idle(now)) || destination == path || destination in old(disk.files)
                || !(old(Stored()).Ok? && Faithful(old(Stored()).value, old(key)))
    {
      var active := Touch(now);
      if active.Err? {
        return Err(active.error);
      }
      if path == destination || destination in disk.files {
        return Err(AlreadyExists);
      }
      var data := ReadCiphertext();
      if data.Err? {
        return Err(data.error);
      }
      r := CopyVerified(destination, data.value);
    }
  }

  /** A file and a passphrase that belong together; a cloud file must be intact as well. */
  predicate OpensUnder(data: File, passphrase: string, cloud: bool) {
    && |passphrase| <= 4096 && data.Encoded?
    && var key := Derived(passphrase, data.envelope.salt);
       var loaded := Load(data, key, data.envelope.salt);
       loaded.Ok? && (cloud ==> Faithful(loaded.value, key))
  }

  /** `open_bytes`: a handle on a file that opens under the passphrase; a cloud file is verified in full. */
  method OpenBytes(path: string, disk: FileSystem, remote: Drive.RemoteFile?, passphrase: string, data: File, now: nat)
    returns (r: Result<Vault, VaultError>)
    ensures r.Ok? ==> fresh(r.value) && r.value.path == path && r.value.disk == disk && r.value.remote == remote
    ensures r.Ok? ==> r.value.key == Derived(passphrase, r.value.salt) && r.value.lastUsed == now
    ensures r.Ok? ==> Load(data, r.value.key, r.value.salt) == Ok(r.value.Held())
    ensures r.Ok? && remote != null ==> Faithful(r.value.Held(), r.value.key)
    ensures r.Ok? <==> OpensUnder(data, passphrase, remote != null)
  {
    if |passphrase| > 4096 {
      return Err(InvalidInput);
    }
    var envelope := ParseEnvelope(data);
    if envelope.Err? {
      return Err(envelope.error);
    }
    var key := Derived(passphrase, envelope.value.salt);
    var entries := OpenManifest(envelope.value, key);
    if entries.Err? {
      return Err(entries.error);
    }
    if remote != null {
      VerifyAllIffFaithful(envelope.value, key);
      if !VerifyAll(data, key) {
        return Err(AuthenticationOrCorrupt);
      }
    }
    var vault := new Vault.Open(path, disk, remote, envelope.value.salt, key, Maps(entries.value, envelope.value.sealed), now);
    r := Ok(vault);
  }

  method Unlock(path: string, disk: FileSystem, passphrase: string, now: nat) returns (r: Result<Vault, VaultError>)
    modifies disk`faults
    ensures old(disk.faults) <= disk.faults
    ensures r.Err? && disk.faults == old(disk.faults) ==> path !in disk.files || !OpensUnder(disk.files[path], passphrase, false)
    ensures r.Ok? ==> fresh(r.value) && r.value.path == path && r.value.disk == disk && r.value.remote == null
    ensures r.Ok? ==> path in disk.files && r.value.key == Derived(passphrase, r.value.salt)
    ensures r.Ok? ==> Load(disk.files[path], r.value.key, r.value.salt) == Ok(r.value.Held())
  {
    var data := disk.Read(path);
    if data.Err? {
      return Err(data.error);
    }
    r := OpenBytes(path, disk, null, passphrase, data.value, now);
  }

  /** `create`: a new vault is an intact empty one, and no existing file is touched. */
  method Create(path: string, disk: FileSystem, passphrase: string, salt: string, now: nat) returns (r: Result<Vault, VaultError>)
    modifies disk
    ensures r.Ok? ==> fresh(r.value) && path !in old(disk.files) &&
                      disk.files == old(disk.files)[path := EncodeFile(EMPTY, Derived(passphrase, salt), salt)]
    ensures r.Ok? ==> r.value.key == Derived(passphrase, salt) && r.value.Held() == EMPTY &&
                      Faithful(r.value.Held(), r.value.key)
    ensures disk.files - {path} == old(disk.files) - {path}
    ensures path in old(disk.files) ==> disk.files == old(disk.files)
    ensures !(12 <= |passphrase| <= 4096) ==> r == Err(InvalidInput) && disk.files == old(disk.files)
    ensures r.Err? && disk.faults == old(disk.faults) ==> !(12 <= |passphrase| <= 4096) || (r.error == AlreadyExists && path in old(disk.files))
  {
    if |passphrase| < 12 || |passphrase| > 4096 {
      return Err(InvalidInput);
    }
    if path in disk.files {
      return Err(AlreadyExists);
    }
    var key, empty := Derived(passphrase, salt), EMPTY;
    var written := disk.CreateNew(path, EncodeFile(empty, key, salt));
    if written.Err? {
      return Err(written.error);
    }
    var vault := new Vault.Open(path, disk, null, salt, key, empty, now);
    assert Versions(empty.entries) == {};
    r := Ok(vault);
  }

  /** `recover`: the handle returned holds exactly the intact maps of the backup, now also under the new path. */
  method Recover(backup: string, destination: string, disk: FileSystem, passphrase: string, now: nat)
    returns (r: Result<Vault, VaultError>)
    modifies disk
    ensures r.Ok? ==> backup in old(disk.files) && destination !in old(disk.files) &&
                      disk.files == old(disk.files)[destination := old(disk.files)[backup]]
    ensures r.Ok? ==> fresh(r.value) && r.value.path == destination && r.value.key == Derived(passphrase, r.value.salt) &&
                      Load(old(disk.files)[backup], r.value.key, r.value.salt) == Ok(r.value.Held()) &&
                      Faithful(r.value.Held(), r.value.key)
    ensures disk.files - {destination} == old(disk.files) - {destination}
    ensures destination in old(disk.files) ==> r.Err? && disk.files == old(disk.files)
    ensures r.Err? && disk.faults == old(disk.faults) ==>
              || backup == destination || destination in old(disk.files) || backup !in old(disk.files)
              || !OpensUnder(old(disk.files)[backup], passphrase, true)
  {
    if backup == destination || destination in disk.files {
      return Err(AlreadyExists);
    }
    var checked := Unlock(backup, disk, passphrase, now);
    if checked.Err? {
      return Err(checked.error);
    }
    var data := disk.Read(backup);
    if data.Err? {
      return Err(data.error);
    }
    if !VerifyAll(data.value, checked.value.key) {
      return Err(AuthenticationOrCorrupt);
    }
    VerifyAllIffFaithful(data.value.envelope, checked.value.key);
    var written := disk.CreateNew(destination, data.value);
    if written.Err? {
      return Err(written.error);
    }
    r := Unlock(destination, disk, passphrase, now);
  }

  /** `VaultSource`: the guard that holds an unlocked handle, and drops it whenever a call finds it locked. */
  class VaultSource {
    const path: string
    const disk: FileSystem
    const remote: Drive.RemoteFile?
    var guard: Vault?

    ghost predicate Valid()
      reads this, if guard == null then {} else guard.Footprint()
    {
      guard != null ==> guard.path == path && guard.disk == disk && guard.remote == remote && this !in guard.Footprint() && guard.Valid()
    }

    constructor (path: string, disk: FileSystem, remote: Drive.RemoteFile?)
      ensures Valid() && guard == null && this.path == path && this.disk == disk && this.remote == remote
    {
      this.path, this.disk, this.remote, this.guard := path, disk, remote, null;
    }

    method Lock()
      modifies this
      ensures guard == null && Valid()
    {
      guard := null;
    }

    /** A locked source refuses at once; one found locked by the call itself is locked afterwards. */
    method PutEntry(id: string, payload: Payload, now: nat) returns (r: Result<(), VaultError>, ghost base: Maps, ghost version: string)
      requires Valid()
      modifies this, if guard == null then {} else guard.Footprint()
      ensures old(guard) == null ==> guard == null && r == Err(Locked)
      ensures r == Err(Locked) ==> guard == null
      ensures r.Ok? ==> guard != null && guard == old(guard) && Valid() && guard.Committed(Edit.Put(Item(id, payload, version)), base)
      ensures r.Err? && old(guard) != null ==> old(guard).RolledBack()
      ensures r.Err? && old(guard) != null && old(guard).Undisturbed() ==>
                if old(guard != null && guard.Idle(now)) then r.error == Locked
                else if !SafeLabel(id) || |payload.bytes| > MAX_PAYLOAD then r.error == InvalidInput
                else old(if guard != null then guard.EditBase() else Ok(EMPTY)) == Err(r.error)
    {
      base, version := EMPTY, "";
      if guard == null {
        return Err(Locked), base, version;
      }
      var answer;
      answer, base := guard.Put(id, payload, now);
      if answer == Err(Locked) {
        guard := null;
      }
      version := if answer.Ok? then answer.value else "";
      r := if answer.Ok? then Ok(()) else Err(answer.error);
    }
  }
}
