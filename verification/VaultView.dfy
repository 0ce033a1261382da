/** The vault as a plain map from entry id to (kind, version, bytes), and the edits of the two maps that refine it. */
module VaultView {
  import opened Basics
  import opened VaultFormat

  const MAX_PAYLOAD := MAX_VAULT_BYTES / 2
  const MAX_IMPORT := 1000

  datatype Secret = Secret(kind: SecretType, version: string, bytes: Bytes)

  /** One entry to be written, with the random version drawn for it. */
  datatype Item = Item(id: string, payload: Payload, version: string)

  /** The edits that commit a new vault file. */
  datatype Edit = Put(item: Item) | Remove(id: string) | Import(items: seq<Item>)

  function SecretAt(m: Maps, key: Key, id: string): Secret
    requires id in m.entries && EntryOpens(id, m, key)
  {
    Secret(m.entries[id].kind, m.entries[id].version, m.sealed[m.entries[id].version].plain)
  }

  ghost function View(m: Maps, key: Key): map<string, Secret>
    requires Faithful(m, key)
  {
    map id | id in m.entries :: SecretAt(m, key, id)
  }

  predicate ItemAllowed(item: Item) {
    SafeLabel(item.id) && |item.payload.bytes| <= MAX_PAYLOAD && SafeVersion(item.version)
  }

  /** When an edit is carried out rather than refused; a drawn version is fresh among the sealed keys only. */
  predicate Admissible(edit: Edit, m: Maps) {
    match edit
    case Put(item) => ItemAllowed(item) && item.version !in m.sealed
    case Remove(id) => id in m.entries
    case Import(items) => 0 < |items| <= MAX_IMPORT && NewItems(items, m)
  }

  predicate NewItems(items: seq<Item>, m: Maps) {
    && (forall i | 0 <= i < |items| ::
          ItemAllowed(items[i]) && items[i].id !in m.entries && items[i].version !in m.sealed)
    && (forall i, j | 0 <= i < j < |items| :: items[i].id != items[j].id && items[i].version != items[j].version)
  }

  function MetaOf(item: Item): EntryMeta { EntryMeta(item.payload.kind, item.version) }

  function BoxOf(item: Item, key: Key): Box<Bytes> { SealPayload(key, item.id, item.version, item.payload.bytes) }

  function PutMaps(m: Maps, key: Key, item: Item): Maps {
    var kept := if item.id in m.entries then m.sealed - {m.entries[item.id].version} else m.sealed;
    Maps(m.entries[item.id := MetaOf(item)], kept[item.version := BoxOf(item, key)])
  }

  function RemoveMaps(m: Maps, id: string): Maps
    requires id in m.entries
  {
    Maps(m.entries - {id}, m.sealed - {m.entries[id].version})
  }

  function ImportMaps(m: Maps, key: Key, items: seq<Item>): Maps {
    if items == [] then m else
      var item := items[|items| - 1];
      var before := ImportMaps(m, key, items[..|items| - 1]);
      Maps(before.entries[item.id := MetaOf(item)], before.sealed[item.version := BoxOf(item, key)])
  }

  function EditMaps(edit: Edit, m: Maps, key: Key): Maps
    requires Admissible(edit, m)
  {
    match edit
    case Put(item) => PutMaps(m, key, item)
    case Remove(id) => RemoveMaps(m, id)
    case Import(items) => ImportMaps(m, key, items)
  }

  function SecretOf(item: Item): Secret { Secret(item.payload.kind, item.version, item.payload.bytes) }

  function AddAll(view: map<string, Secret>, items: seq<Item>): map<string, Secret> {
    if items == [] then view
    else AddAll(view, items[..|items| - 1])[items[|items| - 1].id := SecretOf(items[|items| - 1])]
  }

  /** What each edit means on the plain map. */
  function EditView(edit: Edit, view: map<string, Secret>): map<string, Secret> {
    match edit
    case Put(item) => view[item.id := SecretOf(item)]
    case Remove(id) => view - {id}
    case Import(items) => AddAll(view, items)
  }

  /** The plain map after a series of edits, one after another. */
  function Replay(view: map<string, Secret>, edits: seq<Edit>): map<string, Secret> {
    if edits == [] then view else EditView(edits[|edits| - 1], Replay(view, edits[..|edits| - 1]))
  }

  /** `get_value` on reloaded maps. */
  function GetValue(m: Maps, key: Key, id: string, version: string): Result<Payload, VaultError> {
    if id !in m.entries then Err(MissingEntry)
    else if m.entries[id].version != version then Err(VersionConflict)
    else if version !in m.sealed then Err(Corrupt)
    else match Open(key, PayloadAad(id, version), m.sealed[version])
    case None => Err(AuthenticationOrCorrupt)
    case Some(bytes) => Ok(Payload(bytes, m.entries[id].kind))
  }

  // ---- refinement ----

  lemma VersionIsSealed(m: Maps, id: string)
    requires Bijective(m) && id in m.entries
    ensures m.entries[id].version in m.sealed
  {
    assert m.entries[id].version in Versions(m.entries);
  }

  lemma PutBijective(m: Maps, key: Key, item: Item)
    requires Bijective(m) && item.version !in m.sealed
    ensures Bijective(PutMaps(m, key, item))
  {
    var n := PutMaps(m, key, item);
    forall id | id in m.entries ensures m.entries[id].version in m.sealed {
      VersionIsSealed(m, id);
    }
    forall v | v in m.sealed ensures exists id :: id in m.entries && m.entries[id].version == v {
      assert v in Versions(m.entries);
    }
    assert VersionsDistinct(n.entries);
    forall v ensures v in Versions(n.entries) <==> v in n.sealed {
      if v in n.sealed && v != item.version {
        var id :| id in m.entries && m.entries[id].version == v;
        assert n.entries[id].version == v;
      }
      assert n.entries[item.id].version == item.version;
    }
  }

  lemma PutKeepsEntry(m: Maps, key: Key, item: Item, id: string)
    requires Faithful(m, key) && item.version !in m.sealed && (id in m.entries || id == item.id)
    ensures EntryOpens(id, PutMaps(m, key, item), key)
    ensures SecretAt(PutMaps(m, key, item), key, id) == if id == item.id then SecretOf(item) else SecretAt(m, key, id)
  {
    if id != item.id {
      assert EntryOpens(id, m, key);
      VersionIsSealed(m, id);
    }
  }

  lemma PutFaithful(m: Maps, key: Key, item: Item)
    requires Faithful(m, key) && Admissible(Put(item), m)
    ensures Faithful(PutMaps(m, key, item), key)
  {
    var n := PutMaps(m, key, item);
    PutBijective(m, key, item);
    forall id | id in n.entries ensures EntryOpens(id, n, key) {
      PutKeepsEntry(m, key, item, id);
    }
  }

  /** Replacing or adding one entry under a fresh version keeps every other entry and its payload. */
  lemma PutRefines(m: Maps, key: Key, item: Item)
    requires Faithful(m, key) && Admissible(Put(item), m)
    ensures Faithful(PutMaps(m, key, item), key)
    ensures View(PutMaps(m, key, item), key) == View(m, key)[item.id := SecretOf(item)]
  {
    var n := PutMaps(m, key, item);
    PutFaithful(m, key, item);
    forall id | id in n.entries
      ensures SecretAt(n, key, id) == if id == item.id then SecretOf(item) else SecretAt(m, key, id)
    {
      PutKeepsEntry(m, key, item, id);
    }
  }

  lemma RemoveBijective(m: Maps, id: string)
    requires Bijective(m) && id in m.entries
    ensures Bijective(RemoveMaps(m, id))
  {
    var n := RemoveMaps(m, id);
    forall other | other in m.entries ensures m.entries[other].version in m.sealed {
      VersionIsSealed(m, other);
    }
    forall v ensures v in Versions(n.entries) <==> v in n.sealed {
      if v in n.sealed {
        assert v in Versions(m.entries);
        var other :| other in m.entries && m.entries[other].version == v;
        assert n.entries[other].version == v;
      }
    }
  }

  /** On intact maps the payload of a removed entry is always there, and only that entry goes. */
  lemma RemoveRefines(m: Maps, key: Key, id: string)
    requires Faithful(m, key) && id in m.entries
    ensures m.entries[id].version in m.sealed
    ensures Faithful(RemoveMaps(m, id), key)
    ensures View(RemoveMaps(m, id), key) == View(m, key) - {id}
  {
    var n := RemoveMaps(m, id);
    VersionIsSealed(m, id);
    RemoveBijective(m, id);
    forall other | other in n.entries
      ensures EntryOpens(other, n, key) && SecretAt(n, key, other) == SecretAt(m, key, other)
    {
      assert EntryOpens(other, m, key);
    }
  }

  /** An import adds the keys of its items and no others. */
  lemma {:induction false} ImportKeys(m: Maps, key: Key, items: seq<Item>)
    ensures forall id | id in ImportMaps(m, key, items).entries ::
              id in m.entries || exists i :: 0 <= i < |items| && items[i].id == id
    ensures forall v | v in ImportMaps(m, key, items).sealed ::
              v in m.sealed || exists i :: 0 <= i < |items| && items[i].version == v
  {
    if items != [] {
      var last := |items| - 1;
      ImportKeys(m, key, items[..last]);
      assert forall i | 0 <= i < last :: items[..last][i] == items[i];
    }
  }

  lemma {:induction false} ImportRefines(m: Maps, key: Key, items: seq<Item>)
    requires Faithful(m, key) && NewItems(items, m)
    ensures Faithful(ImportMaps(m, key, items), key)
    ensures View(ImportMaps(m, key, items), key) == AddAll(View(m, key), items)
  {
    if items != [] {
      var last := |items| - 1;
      var init, item := items[..last], items[last];
      ImportRefines(m, key, init);
      ImportKeys(m, key, init);
      var before := ImportMaps(m, key, init);
      assert item.id !in before.entries && item.version !in before.sealed;
      PutRefines(before, key, item);
      assert PutMaps(before, key, item) == ImportMaps(m, key, items);
    }
  }

  /** Every admissible edit keeps the vault intact and acts on the plain map as its meaning says. */
  lemma EditRefines(edit: Edit, m: Maps, key: Key)
    requires Faithful(m, key) && Admissible(edit, m)
    ensures Faithful(EditMaps(edit, m, key), key)
    ensures View(EditMaps(edit, m, key), key) == EditView(edit, View(m, key))
  {
    match edit
    case Put(item) => PutRefines(m, key, item);
    case Remove(id) => RemoveRefines(m, key, id);
    case Import(items) => ImportRefines(m, key, items);
  }

  // ---- files that follow one another ----

  /** One edit made on the maps of one file gives the next file. */
  ghost predicate Follows(was: File, edit: Edit, now: File, key: Key, salt: string) {
    && Intact(was, key, salt) && Admissible(edit, MapsIn(was, key, salt))
    && now == EncodeFile(EditMaps(edit, MapsIn(was, key, salt), key), key, salt)
  }

  /** Then the next file is intact too, and its plain map is that of the first with the edit made. */
  lemma FollowsRefines(was: File, edit: Edit, now: File, key: Key, salt: string)
    requires Follows(was, edit, now, key, salt)
    ensures Intact(now, key, salt) && MapsIn(now, key, salt) == EditMaps(edit, MapsIn(was, key, salt), key)
    ensures View(MapsIn(now, key, salt), key) == EditView(edit, View(MapsIn(was, key, salt), key))
  {
    EditRefines(edit, MapsIn(was, key, salt), key);
    EncodeLoads(EditMaps(edit, MapsIn(was, key, salt), key), key, salt);
  }

  ghost function Next(key: Key, salt: string): (File, Edit, File) -> bool {
    (was, edit, now) => Follows(was, edit, now, key, salt)
  }

  ghost predicate Chain(files: seq<File>, edits: seq<Edit>, key: Key, salt: string) {
    Linked(files, edits, Next(key, salt)) && Intact(files[0], key, salt)
  }

  lemma ChainLink(files: seq<File>, edits: seq<Edit>, i: nat, key: Key, salt: string)
    requires Chain(files, edits, key, salt) && i < |edits|
    ensures Follows(files[i], edits[i], files[i + 1], key, salt)
  {
    assert Next(key, salt)(files[i], edits[i], files[i + 1]);
  }

  lemma ChainGrows(files: seq<File>, edits: seq<Edit>, edit: Edit, file: File, key: Key, salt: string)
    requires Chain(files, edits, key, salt) && Follows(files[|edits|], edit, file, key, salt)
    ensures Chain(files + [file], edits + [edit], key, salt) && Intact(file, key, salt)
  {
    FollowsRefines(files[|edits|], edit, file, key, salt);
    LinkedGrows(files, edits, Next(key, salt), edit, file);
  }

  /** Every file in a chain is intact. */
  lemma ChainIntact(files: seq<File>, edits: seq<Edit>, i: nat, key: Key, salt: string)
    requires Chain(files, edits, key, salt) && i < |files|
    ensures Intact(files[i], key, salt)
  {
    if i > 0 {
      ChainLink(files, edits, i - 1, key, salt);
      FollowsRefines(files[i - 1], edits[i - 1], files[i], key, salt);
    }
  }

  /** The plain map of every file in a chain is that of the first with the edits so far, one after another. */
  lemma {:induction false} ChainReplays(files: seq<File>, edits: seq<Edit>, n: nat, key: Key, salt: string)
    requires Chain(files, edits, key, salt) && n <= |edits|
    ensures Intact(files[n], key, salt)
    ensures View(MapsIn(files[n], key, salt), key) == Replay(View(MapsIn(files[0], key, salt), key), edits[..n])
  {
    if n > 0 {
      ChainReplays(files, edits, n - 1, key, salt);
      assert edits[..n][..n - 1] == edits[..n - 1];
      ChainLink(files, edits, n - 1, key, salt);
      FollowsRefines(files[n - 1], edits[n - 1], files[n], key, salt);
    }
  }

  // ---- reading ----

  /** On intact maps a read is a lookup: absent, wrong version, or exactly the stored bytes; never corrupt. */
  lemma GetValueIsLookup(m: Maps, key: Key, id: string, version: string)
    requires Faithful(m, key)
    ensures GetValue(m, key, id, version) ==
            if id !in View(m, key) then Err(MissingEntry)
            else if View(m, key)[id].version != version then Err(VersionConflict)
            else Ok(Payload(View(m, key)[id].bytes, View(m, key)[id].kind))
  {
    if id in m.entries {
      assert EntryOpens(id, m, key);
    }
  }

  /** An import adds exactly its items: each reads back as given, and every other id reads as before. */
  lemma {:induction false} AddAllIsPointwise(view: map<string, Secret>, items: seq<Item>, id: string)
    requires forall i, j | 0 <= i < j < |items| :: items[i].id != items[j].id
    ensures forall i | 0 <= i < |items| && items[i].id == id ::
              id in AddAll(view, items) && AddAll(view, items)[id] == SecretOf(items[i])
    ensures (forall i | 0 <= i < |items| :: items[i].id != id) ==>
              (id in AddAll(view, items) <==> id in view) && (id in view ==> AddAll(view, items)[id] == view[id])
  {
    if items != [] {
      var init := items[..|items| - 1];
      assert forall i | 0 <= i < |init| :: init[i] == items[i];
      AddAllIsPointwise(view, init, id);
    }
  }

  /** After a put the new version reads back as given, no other version of it does, and other entries read as before. */
  lemma GetAfterPut(m: Maps, key: Key, item: Item, id: string, version: string)
    requires Faithful(m, key) && Admissible(Put(item), m)
    ensures GetValue(PutMaps(m, key, item), key, id, version) ==
            if id != item.id then GetValue(m, key, id, version)
            else if version != item.version then Err(VersionConflict)
            else Ok(item.payload)
  {
    PutRefines(m, key, item);
    GetValueIsLookup(PutMaps(m, key, item), key, id, version);
    GetValueIsLookup(m, key, id, version);
  }

  /** A payload moved to another entry or version does not open there. */
  lemma PayloadOpensOnlyAtItsEntry(key: Key, item: Item, id: string, version: string)
    requires SafeLabel(item.id) && SafeLabel(id)
    ensures Open(key, PayloadAad(id, version), BoxOf(item, key)).Some? <==> id == item.id && version == item.version
  {
    if PayloadAad(id, version) == PayloadAad(item.id, item.version) {
      PayloadAadInjective(id, version, item.id, item.version);
    }
  }
}
