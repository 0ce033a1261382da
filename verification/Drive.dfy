/** A cloud file behind revision tags: the server, and the client that caches the revision it last read. */
module Drive {
  import opened Basics
  import opened VaultFormat

  datatype DriveError = Authorization | CredentialStore | InvalidInput | Network | Conflict | InvalidResponse

  datatype Provider = OneDrive | GoogleDrive

  function ToVaultError(e: DriveError): VaultError {
    match e
    case Conflict => VersionConflict
    case Authorization => Locked
    case CredentialStore => Locked
    case InvalidInput => Corrupt
    case InvalidResponse => Corrupt
    case Network => Storage
  }

  datatype Revision = Revision(etag: string, file: File)

  /** `checked_etag`: only a strong tag can guard a replacement. */
  predicate AcceptedEtag(etag: string) {
    && |etag| <= 1024
    && !("W/" <= etag)
    && 0 < |etag| && etag[0] == '"' && etag[|etag| - 1] == '"'
    && forall c | c in etag :: ' ' <= c && c != '\U{7f}'
  }

  /** A strong tag as section 8.8.3 of RFC 9110 writes it: printable text between two double quotes. */
  function Strong(text: string): string { ['"'] + text + ['"'] }

  predicate Printable(text: string) { forall c | c in text :: ' ' <= c && c != '\U{7f}' }

  /** Every strong tag of printable text up to the limit is accepted. */
  lemma StrongIsAccepted(text: string)
    requires Printable(text) && |text| <= 1022
    ensures AcceptedEtag(Strong(text))
  {
    var etag := Strong(text);
    assert etag[0] == '"' && etag[|etag| - 1] == '"';
    assert forall c | c in etag :: c == '"' || c in text;
    assert "W/"[0] == 'W';
  }

  /** And nothing else is, weak tags in particular, except a quote that is not closed. */
  lemma AcceptedIsStrong(etag: string)
    requires AcceptedEtag(etag)
    ensures !("W/" <= etag)
    ensures etag == "\"" || (2 <= |etag| <= 1024 && etag == Strong(etag[1..|etag| - 1]) && Printable(etag[1..|etag| - 1]))
  {
    if 2 <= |etag| {
      var text := etag[1..|etag| - 1];
      assert etag == Strong(text);
      assert forall i | 0 <= i < |text| :: text[i] == etag[i + 1] && etag[i + 1] in etag;
      assert Printable(text);
    } else {
      assert etag == [etag[0]] == "\"";
    }
  }

  predicate TagsDistinct(history: seq<Revision>) {
    forall i, j | 0 <= i < j < |history| :: history[i].etag != history[j].etag
  }

  predicate IsFreshTag(etag: string, history: seq<Revision>) {
    forall i | 0 <= i < |history| :: history[i].etag != etag
  }

  predicate Extends(history: seq<Revision>, longer: seq<Revision>) {
    history <= longer && TagsDistinct(longer)
  }

  /**
   * The server keeps every revision it ever committed; the last one is current and no tag is used twice.
   * Before and after each request other clients may commit any number of revisions of their own. `faults` counts the
   * requests that failed for a reason of the network or of the account.
   */
  class Server {
    var history: seq<Revision>
    ghost var faults: nat

    ghost predicate Valid()
      reads this
    {
      |history| > 0 && TagsDistinct(history)
    }

    function Current(): Revision
      reads this
      requires history != []
    {
      history[|history| - 1]
    }

    /** No request failed, and nothing was committed. */
    twostate predicate Quiet()
      reads this
    {
      history == old(history) && faults == old(faults)
    }

    constructor (first: Revision)
      ensures Valid() && history == [first]
    {
      history, faults := [first], 0;
    }

    method OthersWrite()
      requires Valid()
      modifies this`history
      ensures Valid() && old(history) <= history
    {
      var longer: seq<Revision> := *;
      if Extends(history, longer) {
        history := longer;
      }
    }

    /** Any failure of the network or of the account; a conflict is only ever the server's answer to a PUT. */
    method Fault() returns (e: Option<DriveError>)
      modifies this`faults
      ensures e != Some(Conflict) && e != Some(DriveError.InvalidInput)
      ensures faults == old(faults) + if e.Some? then 1 else 0
    {
      if {
        case true => e := None;
        case true => e := Some(Network);
        case true => e := Some(Authorization);
        case true => e := Some(CredentialStore);
        case true => e := Some(InvalidResponse);
      }
      if e.Some? {
        faults := faults + 1;
      }
    }

    method Metadata() returns (r: Result<string, DriveError>, at: nat)
      requires Valid()
      modifies this
      ensures Valid() && old(history) <= history && old(faults) <= faults
      ensures at == |history| - 1
      ensures r.Ok? ==> r.value == history[at].etag
      ensures r.Err? ==> old(faults) < faults && r.error != Conflict
    {
      OthersWrite();
      at := |history| - 1;
      var fault := Fault();
      if fault.Some? {
        return Err(fault.value), at;
      }
      r := Ok(history[at].etag);
    }

    /** A pinned download serves the revision asked for; an unpinned one serves that revision or any later one. */
    method Download(asked: nat, pinned: bool) returns (r: Result<File, DriveError>)
      requires Valid() && asked < |history|
      modifies this
      ensures Valid() && old(history) <= history && old(faults) <= faults
      ensures r.Ok? ==> exists j :: asked <= j < |history| && (pinned ==> j == asked) && r.value == history[j].file
      ensures r.Err? ==> old(faults) < faults && r.error != Conflict
    {
      OthersWrite();
      var fault := Fault();
      if fault.Some? {
        return Err(fault.value);
      }
      var served: nat := *;
      if pinned || !(asked <= served < |history|) {
        served := asked;
      }
      r := Ok(history[served].file);
    }

    /** A PUT with If-Match: it commits if and only if the tag is current; the answer may be lost either way. */
    method Put(etag: string, file: File) returns (r: Result<(), DriveError>)
      requires Valid()
      modifies this
      ensures Valid() && old(history) <= history && old(faults) <= faults
      ensures r.Ok? ==> exists i :: |old(history)| <= i < |history| && history[i - 1].etag == etag && history[i].file == file
      ensures r.Err? && Quiet() ==> r.error == Conflict && Current().etag != etag
    {
      OthersWrite();
      var fault := Fault();
      if fault.Some? {
        return Err(fault.value);
      }
      if history[|history| - 1].etag != etag {
        return Err(Conflict);
      }
      var next: string := *;
      if !IsFreshTag(next, history) {
        faults := faults + 1;
        return Err(Network);
      }
      history := history + [Revision(next, file)];
      ghost var mine := |history| - 1;
      OthersWrite();
      if * {
        faults := faults + 1;
        return Err(Network);
      }
      assert history[mine].file == file && history[mine - 1].etag == etag;
      r := Ok(());
    }
  }

  /** `RemoteFile`: one cached revision, replaced by reads and dropped by a confirmed write. */
  class RemoteFile {
    const server: Server
    const provider: Provider
    var cache: Option<Revision>

    ghost predicate Valid()
      reads this, server
    {
      server.Valid() && (cache.Some? ==> cache.value in server.history)
    }

    constructor (server: Server, provider: Provider)
      requires server.Valid()
      ensures Valid() && this.server == server && this.provider == provider && cache == None
    {
      this.server := server;
      this.provider := provider;
      cache := None;
    }

    /**
     * A snapshot read: the bytes returned are those of the one revision whose tag is now cached, and that revision
     * was current at some moment during the call, whatever other clients wrote between the three requests.
     */
    method ReadRemote() returns (r: Result<File, DriveError>)
      requires Valid()
      modifies this, server
      ensures Valid() && old(server.history) <= server.history
      ensures r.Ok? ==> cache.Some? && cache.value.file == r.value && AcceptedEtag(cache.value.etag)
      ensures r.Ok? ==> exists i :: |old(server.history)| - 1 <= i < |server.history| && server.history[i] == cache.value
      ensures r.Err? ==> cache == old(cache)
      ensures server.Quiet() ==>
                r == (if !AcceptedEtag(server.Current().etag) then Err(InvalidResponse)
                      else if old(cache) == Some(server.Current()) || HasMagic(server.Current().file) then Ok(server.Current().file)
                      else Err(InvalidResponse))
      ensures old(server.faults) <= server.faults
    {
      var first, at := server.Metadata();
      if first.Err? {
        return Err(first.error);
      }
      var etag := first.value;
      if !AcceptedEtag(etag) {
        return Err(InvalidResponse);
      }
      ghost var seen := server.history;
      if cache.Some? && cache.value.etag == etag {
        return Ok(cache.value.file);
      }
      var download := server.Download(at, provider == GoogleDrive);
      if download.Err? {
        return Err(download.error);
      }
      if !HasMagic(download.value) {
        return Err(InvalidResponse);
      }
      var second, now := server.Metadata();
      if second.Err? {
        return Err(second.error);
      }
      if !AcceptedEtag(second.value) {
        return Err(InvalidResponse);
      }
      if second.value != etag {
        return Err(Conflict);
      }
      assert server.history[at] == seen[at];
      assert now == at;
      cache := Some(Revision(etag, download.value));
      assert server.history[at] == cache.value;
      r := Ok(download.value);
    }

    /**
     * A conditional write: success means one new revision, written directly after the cached one and holding these
     * bytes. On any error the cached pair is untouched and still a true revision.
     */
    method WriteRemote(file: File) returns (r: Result<(), DriveError>)
      requires Valid()
      modifies this, server
      ensures Valid() && old(server.history) <= server.history
      ensures r.Ok? ==> old(cache).Some? && cache == None
      ensures r.Ok? ==> exists i :: |old(server.history)| <= i < |server.history| &&
                                    server.history[i - 1] == old(cache).value && server.history[i].file == file
      ensures r.Err? ==> cache == old(cache)
      ensures r.Err? && server.Quiet() ==>
                r.error == if !HasMagic(file) then DriveError.InvalidInput else Conflict
      ensures r.Err? && server.Quiet() && HasMagic(file) ==> old(cache) != Some(server.Current())
      ensures old(server.faults) <= server.faults
    {
      if !HasMagic(file) {
        return Err(DriveError.InvalidInput);
      }
      if cache.None? {
        return Err(Conflict);
      }
      ghost var k :| 0 <= k < |server.history| && server.history[k] == cache.value;
      var answer := server.Put(cache.value.etag, file);
      assert server.history[k] == cache.value;
      if answer.Err? {
        return Err(answer.error);
      }
      cache := None;
      r := Ok(());
    }
  }
}
