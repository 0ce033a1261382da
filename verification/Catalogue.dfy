/**
 * The catalogue of connections: a file shared by every running process, and in each process the connections and
 * vault handles made from it. A process replaces the file only if it still holds what the process last read or wrote.
 */
module Catalogue {
  import opened Basics
  import Drive
  import Credential

  datatype Failure = InvalidConfig | State | Source | VersionConflict

  datatype StoreKind = Fake | LocalVault | Azure | Aws | Google | OneDrive | GoogleDrive | Git

  datatype RemoteRef = RemoteRef(provider: Drive.Provider, credentialId: string, fileId: string)

  datatype Location = FileSystem(path: string) | AzureKeyVault(vaultName: string) | DriveFile(remote: RemoteRef)

  datatype Connection = Connection(id: string, location: Location)

  datatype SourceRef = SourceRef(store: StoreKind, connection: string, entry: string)

  type Connections = map<string, Connection>

  /** The bytes of the file: a parsed catalogue in one of its spellings, or something that does not parse. */
  datatype Doc = Doc(version: nat, list: seq<Connection>, spelling: nat) | Unreadable

  const MAX_CONNECTIONS := 64

  function StoreOf(location: Location): StoreKind {
    match location
    case FileSystem(_) => LocalVault
    case AzureKeyVault(_) => Azure
    case DriveFile(remote) => if remote.provider.OneDrive? then OneDrive else GoogleDrive
  }

  // ---- validity ----

  predicate Letter(c: char) { 'a' <= c <= 'z' || 'A' <= c <= 'Z' }

  predicate VaultName(name: string) {
    && 3 <= |name| <= 24 && Letter(name[0]) && AsciiAlnum(name[|name| - 1])
    && (forall i | 0 <= i < |name| - 1 :: !(name[i] == '-' && name[i + 1] == '-'))
    && forall c | c in name :: AsciiAlnum(c) || c == '-'
  }

  predicate AzureEntry(entry: string) { 1 <= |entry| <= 127 && forall c | c in entry :: AsciiAlnum(c) || c == '-' }

  /** Names of Azure vaults and entries at the edges of the rules. */
  lemma AzureNames(name: string, entry: string)
    ensures VaultName("a-1") && !VaultName("ab") && !VaultName("1ab") && !VaultName("ab-") && !VaultName("a--b")
    ensures VaultName(name) ==> 3 <= |name| <= 24 && ('a' <= name[0] <= 'z' || 'A' <= name[0] <= 'Z') && '_' !in name
    ensures AzureEntry("db-Key-1") && !AzureEntry("a_b")
    ensures AzureEntry(entry) ==> 1 <= |entry| <= 127 && '/' !in entry
  {
    assert "a--b"[1] == '-' && "a--b"[2] == '-';
    assert "a_b"[1] == '_' && '_' in "a_b";
  }

  /** `validate`, apart from what the file system says about a path. */
  predicate ValidConnection(c: Connection) {
    && SafeLabel(c.id) && c.id != "local"
    && match c.location
       case FileSystem(_) => true
       case AzureKeyVault(name) => c.id == name && VaultName(name)
       case DriveFile(remote) => Credential.ValidId(remote.credentialId) && Credential.ValidId(remote.fileId)
  }

  /** The loop of `open`: the connections by id, unless one is invalid or an id repeats. */
  function Checked(list: seq<Connection>): Option<Connections> {
    if list == [] then Some(map[])
    else
      var last := list[|list| - 1];
      match Checked(list[..|list| - 1])
      case None => None
      case Some(m) => if ValidConnection(last) && last.id !in m then Some(m[last.id := last]) else None
  }

  /** The connections a file stands for, if it is a catalogue; no file is an empty one. */
  function Content(doc: Option<Doc>): Option<Connections> {
    match doc
    case None => Some(map[])
    case Some(Unreadable) => None
    case Some(Doc(version, list, _)) => if version != 1 || |list| > MAX_CONNECTIONS then None else Checked(list)
  }

  ghost predicate WellKeyed(m: Connections) {
    |m| <= MAX_CONNECTIONS && forall id | id in m :: m[id].id == id && ValidConnection(m[id])
  }

  lemma {:induction false} CheckedIsWellKeyed(list: seq<Connection>)
    requires Checked(list).Some?
    ensures |Checked(list).value| == |list|
    ensures var m := Checked(list).value; forall id | id in m :: m[id].id == id && ValidConnection(m[id])
  {
    if list != [] {
      CheckedIsWellKeyed(list[..|list| - 1]);
      var m, last := Checked(list[..|list| - 1]).value, list[|list| - 1];
      assert m[last.id := last].Keys == m.Keys + {last.id};
    }
  }

  lemma ContentIsWellKeyed(doc: Option<Doc>)
    requires Content(doc).Some?
    ensures WellKeyed(Content(doc).value)
  {
    if doc.Some? {
      CheckedIsWellKeyed(doc.value.list);
    }
  }

  /** A list is accepted only if its ids are all different. */
  lemma {:induction false} CheckedIsDistinct(list: seq<Connection>, i: nat, j: nat)
    requires Checked(list).Some? && i < j < |list|
    ensures list[i].id != list[j].id && list[i].id in Checked(list).value
  {
    var front := list[..|list| - 1];
    if j < |front| {
      CheckedIsDistinct(front, i, j);
      assert front[i] == list[i] && front[j] == list[j];
    } else {
      CheckedHas(front, i);
    }
  }

  lemma {:induction false} CheckedHas(list: seq<Connection>, i: nat)
    requires Checked(list).Some? && i < |list|
    ensures list[i].id in Checked(list).value && Checked(list).value[list[i].id] == list[i]
  {
    if i < |list| - 1 {
      CheckedHas(list[..|list| - 1], i);
    }
  }

  lemma {:induction false} CheckedPrefix(list: seq<Connection>, n: nat)
    requires Checked(list).Some? && n <= |list|
    ensures Checked(list[..n]).Some?
  {
    if n < |list| {
      CheckedPrefix(list[..|list| - 1], n);
      assert list[..|list| - 1][..n] == list[..n];
    } else {
      assert list[..n] == list;
    }
  }

  // ---- edits ----

  datatype Edit = Add(connection: Connection) | Remove(id: string) | Reconnect(connection: Connection)

  /** A reconnected drive file keeps its provider and its file. */
  predicate SameFile(was: Location, now: Location) {
    was.DriveFile? && now.DriveFile? && was.remote.provider == now.remote.provider && was.remote.fileId == now.remote.fileId
  }

  function Apply(m: Connections, e: Edit): Option<Connections> {
    match e
    case Add(c) => if |m| < MAX_CONNECTIONS && c.id !in m then Some(m[c.id := c]) else None
    case Remove(id) => if id in m then Some(m - {id}) else None
    case Reconnect(c) => if c.id in m && SameFile(m[c.id].location, c.location) then Some(m[c.id := c]) else None
  }

  ghost predicate OneEdit(was: Option<Doc>, now: Option<Doc>) {
    Content(was).Some? && Content(now).Some? && exists e :: Apply(Content(was).value, e) == Content(now)
  }

  ghost predicate Chained(history: seq<Option<Doc>>) {
    history != [] && forall i | 0 <= i < |history| - 1 :: OneEdit(history[i], history[i + 1])
  }

  lemma EditMade(was: Option<Doc>, now: Option<Doc>, e: Edit)
    requires Content(was).Some? && Content(now).Some? && Apply(Content(was).value, e) == Content(now)
    ensures OneEdit(was, now)
  {
  }

  lemma ChainGrows(history: seq<Option<Doc>>, now: Option<Doc>)
    requires Chained(history) && OneEdit(history[|history| - 1], now)
    ensures Chained(history + [now])
  {
    var more := history + [now];
    forall i | 0 <= i < |more| - 1 ensures OneEdit(more[i], more[i + 1]) {
      if i < |history| - 1 {
        assert OneEdit(history[i], history[i + 1]);
      }
    }
  }

  /** An id that stays keeps what it denotes: the same place, or for a drive file the same provider and file. */
  predicate SamePlace(was: Location, now: Location) { now == was || SameFile(was, now) }

  /** Whatever the processes did in between, an id that was never absent still denotes the vault it denoted. */
  lemma {:induction false} IdsAreNotRepointed(history: seq<Option<Doc>>, i: nat, j: nat, id: string)
    requires Chained(history) && i <= j < |history|
    requires forall k | i <= k <= j :: Content(history[k]).Some? && id in Content(history[k]).value
    ensures SamePlace(Content(history[i]).value[id].location, Content(history[j]).value[id].location)
    decreases j
  {
    if i < j {
      IdsAreNotRepointed(history, i, j - 1, id);
      assert OneEdit(history[j - 1], history[j - 1 + 1]);
      var e :| Apply(Content(history[j - 1]).value, e) == Content(history[j]);
    }
  }

  // ---- routing ----

  /** `routed`: where a reference is read from. */
  function Routed(connections: Connections, source: SourceRef): Result<SourceRef, Failure> {
    if source.connection !in connections then Ok(source)
    else
      var location := connections[source.connection].location;
      if StoreOf(location) != source.store then Err(InvalidConfig)
      else match location
        case AzureKeyVault(name) => Ok(SourceRef(Azure, name, source.entry))
        case DriveFile(_) => Ok(SourceRef(LocalVault, source.connection, source.entry))
        case FileSystem(_) => Ok(source)
  }

  predicate ValidAzure(source: SourceRef) { source.store == Azure && VaultName(source.connection) && AzureEntry(source.entry) }

  /**
   * A reference is read under its own entry from where its connection points: a catalogued Azure vault by its name, a
   * drive file or a file through the handle of the connection itself; one of another kind than the connection is refused.
   */
  lemma RoutedWhereItPoints(connections: Connections, source: SourceRef)
    ensures Routed(connections, source).Ok? ==> Routed(connections, source).value.entry == source.entry
    ensures source.connection !in connections ==> Routed(connections, source) == Ok(source)
    ensures source.connection in connections ==>
              var routed := Routed(connections, source);
              match connections[source.connection].location
              case FileSystem(_) => routed == if source.store == LocalVault then Ok(source) else Err(InvalidConfig)
              case AzureKeyVault(name) =>
                routed == if source.store == Azure then Ok(source.(connection := name)) else Err(InvalidConfig)
              case DriveFile(RemoteRef(OneDrive, _, _)) =>
                routed == if source.store == StoreKind.OneDrive then Ok(source.(store := LocalVault)) else Err(InvalidConfig)
              case DriveFile(RemoteRef(GoogleDrive, _, _)) =>
                routed == if source.store == StoreKind.GoogleDrive then Ok(source.(store := LocalVault)) else Err(InvalidConfig)
  {
  }

  /** A catalogued Azure vault is named like its connection, so cataloguing it moves no binding that names it directly. */
  lemma CataloguedAzureIsDirect(connections: Connections, source: SourceRef)
    requires WellKeyed(connections) && source.store == Azure
    requires source.connection in connections ==> connections[source.connection].location.AzureKeyVault?
    ensures Routed(connections, source) == Ok(source)
  {
  }

  /** The handle of one vault. */
  class Handle {
    const location: Location
    var unlocked: bool

    constructor (location: Location)
      ensures this.location == location && !unlocked
    {
      this.location, unlocked := location, false;
    }

    method Lock()
      modifies this
      ensures !unlocked
    {
      unlocked := false;
    }
  }

  /**
   * The catalogue file, with every content it ever had. Writers hold its lock from the comparison to the replacement;
   * other processes may have written any number of times before and may again afterwards. `faults` counts the calls
   * that failed for a reason outside this model.
   */
  class Disk {
    var doc: Option<Doc>
    ghost var history: seq<Option<Doc>>
    ghost var faults: nat

    /** Nothing failed and nothing was written. */
    twostate predicate Quiet()
      reads this
    {
      history == old(history) && faults == old(faults)
    }

    ghost predicate Valid()
      reads this
    {
      Chained(history) && history[|history| - 1] == doc
    }

    constructor (doc: Option<Doc>)
      ensures Valid() && history == [doc] && this.doc == doc
    {
      this.doc, history, faults := doc, [doc], 0;
    }

    method Fault() returns (failed: bool)
      modifies this`faults
      ensures faults == old(faults) + if failed then 1 else 0
    {
      failed := *;
      if failed {
        faults := faults + 1;
      }
    }

    /** Other processes write by edits of their own; that they do so, in every interleaving, is `CatalogueProcesses`. */
    method OthersAct()
      requires Valid()
      modifies this`doc, this`history
      ensures Valid() && old(history) <= history
    {
      var edits: int := *;
      if edits < 0 {
        edits := 0;
      }
      for i := 0 to edits
        invariant Valid() && old(history) <= history
      {
        var e: Edit := *;
        var next: Doc := *;
        if Content(doc).Some? && Content(Some(next)).Some? && Apply(Content(doc).value, e) == Content(Some(next)) {
          EditMade(doc, Some(next), e);
          ChainGrows(history, Some(next));
          doc := Some(next);
          history := history + [doc];
        }
      }
    }

    /** `read_catalogue`. */
    method Read() returns (r: Result<Option<Doc>, Failure>)
      modifies this`faults
      ensures old(faults) <= faults
      ensures r.Ok? ==> r.value == doc && faults == old(faults)
      ensures r.Err? ==> (r.error == State || r.error == InvalidConfig) && old(faults) < faults
    {
      var unreadable := Fault();
      if unreadable {
        return Err(State);
      }
      var long := Fault();
      if long {
        return Err(InvalidConfig);
      }
      r := Ok(doc);
    }

    /** The file is replaced as a whole. */
    method Replace(next: Doc, ghost e: Edit)
      requires Valid() && Content(doc).Some? && Content(Some(next)).Some? && Apply(Content(doc).value, e) == Content(Some(next))
      modifies this`doc, this`history
      ensures Valid() && doc == Some(next) && history == old(history) + [doc]
    {
      EditMade(doc, Some(next), e);
      ChainGrows(history, Some(next));
      doc := Some(next);
      history := history + [doc];
    }

    /**
     * `persist`: success means the file held `expected`, which was last read or written by this process, and then
     * `list`; a stale process gets an error and replaces nothing.
     */
    method Persist(expected: Option<Doc>, list: seq<Connection>, ghost e: Edit)
      returns (r: Result<Doc, Failure>, ghost at: nat)
      requires Valid() && Content(expected).Some? && Checked(list).Some? && |list| <= MAX_CONNECTIONS
      requires Apply(Content(expected).value, e) == Checked(list)
      modifies this
      ensures Valid() && old(history) <= history
      ensures r.Ok? ==> r.value == Doc(1, list, 0)
      ensures r.Ok? ==> |old(history)| <= at < |history| && history[at - 1] == expected && history[at] == Some(r.value)
      ensures old(faults) <= faults
      ensures r.Err? && Quiet() ==> r.error == VersionConflict && doc != expected
    {
      at := 0;
      OthersAct();
      var unlockable := Fault();
      if unlockable {
        return Err(State), at;
      }
      var locked := Fault();
      if locked {
        return Err(VersionConflict), at;
      }
      var current := Read();
      if current.Err? {
        return Err(current.error), at;
      }
      if current.value != expected {
        return Err(VersionConflict), at;
      }
      var long := Fault();
      if long {
        return Err(InvalidConfig), at;
      }
      var unwritten := Fault();
      if unwritten {
        return Err(State), at;
      }
      at := |history|;
      Replace(Doc(1, list, 0), e);
      OthersAct();
      r := Ok(Doc(1, list, 0));
    }
  }

  /** The connections in some order. */
  method Listing(m: Connections) returns (list: seq<Connection>)
    requires WellKeyed(m)
    ensures Checked(list) == Some(m) && |list| == |m|
  {
    list := [];
    var rest := m.Keys;
    while rest != {}
      invariant rest <= m.Keys && |list| + |rest| == |m|
      invariant Checked(list) == Some(map id | id in m && id !in rest :: m[id])
      decreases |rest|
    {
      var id :| id in rest;
      rest := rest - {id};
      assert (list + [m[id]])[..|list|] == list;
      ghost var before := Checked(list).value;
      list := list + [m[id]];
      assert Checked(list) == Some(before[id := m[id]]);
      assert before[id := m[id]] == map key | key in m && key !in rest :: m[key];
    }
    assert (map id | id in m && id !in rest :: m[id]) == m;
  }

  lemma AddedIsChecked(list: seq<Connection>, c: Connection)
    requires Checked(list).Some? && c.id !in Checked(list).value && ValidConnection(c)
    ensures Checked(list + [c]) == Some(Checked(list).value[c.id := c])
  {
    assert (list + [c])[..|list|] == list;
  }

  /** The list to write when a connection is added, removed or renewed. */
  method ListWith(ghost doc: Option<Doc>, m: Connections, c: Connection) returns (list: seq<Connection>)
    requires Content(doc) == Some(m) && ValidConnection(c) && c.id !in m
    ensures Checked(list) == Some(m[c.id := c]) && |list| == |m| + 1
  {
    ContentIsWellKeyed(doc);
    list := Listing(m);
    AddedIsChecked(list, c);
    list := list + [c];
  }

  method ListWithout(ghost doc: Option<Doc>, m: Connections, id: string) returns (list: seq<Connection>)
    requires Content(doc) == Some(m) && id in m
    ensures Checked(list) == Some(m - {id}) && |list| <= MAX_CONNECTIONS
  {
    ContentIsWellKeyed(doc);
    assert (m - {id}).Keys == m.Keys - {id};
    list := Listing(m - {id});
  }

  method ListRenewed(ghost doc: Option<Doc>, m: Connections, c: Connection) returns (list: seq<Connection>)
    requires Content(doc) == Some(m) && ValidConnection(c) && c.id in m
    ensures Checked(list) == Some(m[c.id := c]) && |list| <= MAX_CONNECTIONS
  {
    ContentIsWellKeyed(doc);
    assert m[c.id := c].Keys == m.Keys;
    list := Listing(m[c.id := c]);
  }

  /** A handle for every file and drive connection, and for no other. */
  ghost predicate HandlesFor(files: map<string, Handle>, m: Connections) {
    && (forall id :: id in files <==> id in m && !m[id].location.AzureKeyVault?)
    && forall id | id in files :: files[id].location == m[id].location
  }

  /** One process's view: `saved` is what it last read from the file or wrote to it. */
  class Sources {
    const disk: Disk
    const local: Handle
    var saved: Option<Doc>
    var connections: Connections
    var files: map<string, Handle>

    ghost predicate Valid()
      reads this
    {
      Content(saved) == Some(connections) && HandlesFor(files, connections)
    }

    ghost predicate Holds(saved: Option<Doc>, connections: Connections, files: map<string, Handle>)
      reads this
    {
      this.saved == saved && this.connections == connections && this.files == files
    }

    constructor (disk: Disk, local: Handle, saved: Option<Doc>, connections: Connections, files: map<string, Handle>)
      ensures this.disk == disk && this.local == local
      ensures Holds(saved, connections, files)
    {
      this.disk, this.local, this.saved, this.connections, this.files := disk, local, saved, connections, files;
    }

    /** The catalogue now in `saved` was written directly over the one given, which the process knew. */
    ghost predicate Wrote(was: Option<Doc>, at: nat)
      reads this, disk
    {
      0 < at < |disk.history| && disk.history[at - 1] == was && disk.history[at] == saved
    }

    /** Writing the catalogue after one edit; only if that succeeds does memory follow. */
    method Commit(list: seq<Connection>, e: Edit) returns (r: Result<(), Failure>, ghost at: nat)
      requires Content(saved) == Some(connections) && disk.Valid()
      requires |list| <= MAX_CONNECTIONS && Checked(list).Some? && Apply(connections, e) == Checked(list)
      modifies this`saved, this`connections, disk
      ensures disk.Valid() && old(disk.history) <= disk.history
      ensures r.Err? ==> saved == old(saved) && connections == old(connections)
      ensures r.Ok? ==> Apply(old(connections), e) == Some(connections) == Content(saved)
      ensures r.Ok? ==> Wrote(old(saved), at) && |old(disk.history)| <= at
      ensures old(disk.faults) <= disk.faults && (r.Err? && disk.Quiet() ==> r.error == VersionConflict && disk.doc != saved)
    {
      var written;
      written, at := disk.Persist(saved, list, e);
      if written.Err? {
        return Err(written.error), at;
      }
      saved := Some(written.value);
      connections := Checked(list).value;
      r := Ok(());
    }

    method Add(connection: Connection, allowed: bool) returns (r: Result<(), Failure>, ghost at: nat)
      requires Valid() && disk.Valid()
      modifies this, disk
      ensures Valid() && disk.Valid() && old(disk.history) <= disk.history
      ensures r.Err? ==> Holds(old(saved), old(connections), old(files))
      ensures r.Ok? ==> Wrote(old(saved), at) && |old(disk.history)| <= at
      ensures r.Ok? ==> Apply(old(connections), Edit.Add(connection)) == Some(connections)
      ensures r.Ok? ==> ValidConnection(connection) && (connection.location.FileSystem? ==> allowed)
      ensures r.Err? && disk.Quiet() ==>
                || !ValidConnection(connection) || (connection.location.FileSystem? && !allowed)
                || |connections| >= MAX_CONNECTIONS || connection.id in connections || disk.doc != saved
      ensures r.Ok? ==> if connection.location.AzureKeyVault? then files == old(files)
                        else connection.id in files && fresh(files[connection.id]) && files == old(files)[connection.id := files[connection.id]]
    {
      at := 0;
      if !ValidConnection(connection) || (connection.location.FileSystem? && !allowed) {
        return Err(InvalidConfig), at;
      }
      if |connections| >= MAX_CONNECTIONS || connection.id in connections {
        return Err(InvalidConfig), at;
      }
      var source: Handle? := null;
      if !connection.location.AzureKeyVault? {
        source := new Handle(connection.location);
      }
      var list := ListWith(saved, connections, connection);
      r, at := Commit(list, Edit.Add(connection));
      if r.Ok? && source != null {
        files := files[connection.id := source];
      }
    }

    /** The handle goes, locked. */
    method Forget(id: string)
      modifies this`files, if id in files then {files[id]} else {}
      ensures files == old(files) - {id} && (id in old(files) ==> !old(files)[id].unlocked)
    {
      if id in files {
        var source := files[id];
        files := files - {id};
        source.Lock();
      }
    }

    method Remove(id: string) returns (r: Result<(), Failure>, ghost at: nat)
      requires Valid() && disk.Valid()
      modifies this, disk, if id in files then {files[id]} else {}
      ensures Valid() && disk.Valid() && old(disk.history) <= disk.history
      ensures r.Err? ==> Holds(old(saved), old(connections), old(files)) && (id in files ==> unchanged(files[id]))
      ensures r.Ok? ==> Wrote(old(saved), at) && |old(disk.history)| <= at
      ensures r.Ok? ==> Apply(old(connections), Edit.Remove(id)) == Some(connections)
      ensures r.Err? && disk.Quiet() ==> id !in connections || disk.doc != saved
      ensures r.Ok? ==> files == old(files) - {id} && (id in old(files) ==> !old(files)[id].unlocked)
    {
      at := 0;
      if id !in connections {
        return Err(InvalidConfig), at;
      }
      var list := ListWithout(saved, connections, id);
      r, at := Commit(list, Edit.Remove(id));
      if r.Ok? {
        Forget(id);
      }
    }

    /** Renewing the credentials of a drive file: nothing else about the connection can change. */
    method Reconnect(connection: Connection, allowed: bool) returns (r: Result<(), Failure>, ghost at: nat)
      requires Valid() && disk.Valid()
      modifies this, disk, if connection.id in files then {files[connection.id]} else {}
      ensures Valid() && disk.Valid() && old(disk.history) <= disk.history
      ensures r.Err? ==> Holds(old(saved), old(connections), old(files)) &&
                         (connection.id in files ==> unchanged(files[connection.id]))
      ensures r.Ok? ==> Wrote(old(saved), at) && |old(disk.history)| <= at
      ensures r.Ok? ==> Apply(old(connections), Edit.Reconnect(connection)) == Some(connections)
      ensures r.Ok? ==> ValidConnection(connection) && old(connections)[connection.id].location.DriveFile?
      ensures r.Err? && disk.Quiet() ==>
                || !ValidConnection(connection) || connection.id !in connections
                || !SameFile(connections[connection.id].location, connection.location) || disk.doc != saved
      ensures r.Ok? ==> connection.id in old(files) && connection.id in files && fresh(files[connection.id])
      ensures r.Ok? ==> files == old(files)[connection.id := files[connection.id]] && !old(files)[connection.id].unlocked
    {
      at := 0;
      if !ValidConnection(connection) || (connection.location.FileSystem? && !allowed) {
        return Err(InvalidConfig), at;
      }
      if connection.id !in connections || !SameFile(connections[connection.id].location, connection.location) {
        return Err(InvalidConfig), at;
      }
      var source := new Handle(connection.location);
      var list := ListRenewed(saved, connections, connection);
      r, at := Commit(list, Edit.Reconnect(connection));
      if r.Ok? {
        var previous := files[connection.id];
        files := files[connection.id := source];
        previous.Lock();
      }
    }

    /** `file`: the handle of the built-in vault or of a catalogued one. */
    method File(id: string) returns (r: Result<Handle, Failure>)
      requires Valid()
      ensures r == if id == "local" then Ok(local) else if id in files then Ok(files[id]) else Err(InvalidConfig)
    {
      if id == "local" {
        return Ok(local);
      }
      r := if id in files then Ok(files[id]) else Err(InvalidConfig);
    }

    /**
     * `validate_ref`: a reference is good if and only if it names a file or drive connection of its kind, the
     * built-in vault, or an Azure secret.
     */
    method ValidateRef(source: SourceRef) returns (r: Result<(), Failure>)
      requires Valid()
      ensures r.Ok? <==>
              if source.connection in connections && !connections[source.connection].location.AzureKeyVault?
              then StoreOf(connections[source.connection].location) == source.store
              else
                || (source.store == LocalVault && source.connection == "local")
                || (source.store == Azure && VaultName(source.connection) && AzureEntry(source.entry))
    {
      ContentIsWellKeyed(saved);
      var routed := Routed(connections, source);
      if routed.Err? {
        return Err(routed.error);
      }
      match routed.value.store
      case LocalVault =>
        var handle := File(routed.value.connection);
        return if handle.Ok? then Ok(()) else Err(InvalidConfig);
      case Azure =>
        return if ValidAzure(routed.value) then Ok(()) else Err(InvalidConfig);
      case _ =>
        return Err(InvalidConfig);
    }
  }

  /** What the file system says about the paths of file connections. */
  predicate PathsAllowed(m: Connections, allowed: string -> bool) {
    forall id | id in m :: m[id].location.FileSystem? ==> allowed(m[id].location.path)
  }

  /** The loop of `open`: the connections of a list and their handles, unless one is invalid, repeated or refused. */
  method OpenList(list: seq<Connection>, allowed: string -> bool) returns (r: Option<(Connections, map<string, Handle>)>)
    ensures r.Some? <==> Checked(list).Some? && PathsAllowed(Checked(list).value, allowed)
    ensures r.Some? ==> Checked(list) == Some(r.value.0) && HandlesFor(r.value.1, r.value.0)
    ensures r.Some? ==> forall id | id in r.value.1 :: fresh(r.value.1[id])
  {
    var connections: Connections := map[];
    var files: map<string, Handle> := map[];
    for i := 0 to |list|
      invariant Checked(list[..i]) == Some(connections) && HandlesFor(files, connections)
      invariant PathsAllowed(connections, allowed)
      invariant forall id | id in files :: fresh(files[id])
    {
      var connection := list[i];
      assert list[..i + 1] == list[..i] + [connection];
      if Checked(list).Some? {
        CheckedPrefix(list, i + 1);
        CheckedHas(list, i);
      }
      if !ValidConnection(connection) || (connection.location.FileSystem? && !allowed(connection.location.path)) {
        return None;
      }
      if connection.id in connections {
        return None;
      }
      if !connection.location.AzureKeyVault? {
        var source := new Handle(connection.location);
        files := files[connection.id := source];
      }
      AddedIsChecked(list[..i], connection);
      connections := connections[connection.id := connection];
    }
    assert list[..|list|] == list;
    r := Some((connections, files));
  }

  /** Opening: a catalogue with a bad or repeated entry is refused as a whole. */
  method Open(disk: Disk, local: Handle, allowed: string -> bool) returns (r: Result<Sources, Failure>)
    requires disk.Valid()
    modifies disk`faults
    ensures r.Ok? ==> PathsAllowed(r.value.connections, allowed)
    ensures r.Err? && disk.faults == old(disk.faults) ==>
              Content(disk.doc).None? || !PathsAllowed(Content(disk.doc).value, allowed)
    ensures r.Ok? ==> fresh(r.value) && r.value.Valid() && r.value.disk == disk && r.value.saved == disk.doc
    ensures r.Ok? ==> forall id | id in r.value.files :: fresh(r.value.files[id])
    ensures r.Ok? ==> Content(disk.doc) == Some(r.value.connections)
  {
    var read := disk.Read();
    if read.Err? {
      return Err(read.error);
    }
    var list := [];
    if read.value.Some? {
      if read.value.value.Unreadable? || read.value.value.version != 1 || |read.value.value.list| > MAX_CONNECTIONS {
        return Err(InvalidConfig);
      }
      list := read.value.value.list;
    }
    var checked := OpenList(list, allowed);
    if checked.None? {
      return Err(InvalidConfig);
    }
    var sources := new Sources(disk, local, read.value, checked.value.0, checked.value.1);
    r := Ok(sources);
  }
}
