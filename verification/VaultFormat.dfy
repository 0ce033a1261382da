/** The encrypted vault file: envelope, ideal sealed boxes and the checks made when it is opened. */
module VaultFormat {
  import opened Basics

  datatype VaultError =
    | InvalidInput | Locked | MissingEntry | AlreadyExists
    | VersionConflict | AuthenticationOrCorrupt | Corrupt | Storage

  const MAGIC := "TVAULT02"
  const MAX_VAULT_BYTES := 16 * 1024 * 1024

  /** `derive_key` idealised: one key for each passphrase and salt. */
  datatype Key = Derived(passphrase: string, salt: string) | Zeroed

  /** Authenticated encryption idealised: a sealed box opens only under its own key and associated data. */
  datatype Box<P> = Sealed(key: Key, aad: string, plain: P) | Noise(short: bool)

  function Open<P>(key: Key, aad: string, box: Box<P>): Option<P> {
    if box.Sealed? && box.key == key && box.aad == aad then Some(box.plain) else None
  }

  datatype EntryMeta = EntryMeta(kind: SecretType, version: string)

  datatype Manifest = Manifest(version: nat, entries: map<string, EntryMeta>)

  datatype Envelope = Envelope(version: nat, salt: string, manifest: Box<Manifest>, sealed: map<string, Box<Bytes>>)

  /** The JSON encoding is idealised as injective; every other byte string is `Garbage`, with or without the magic prefix. */
  datatype File = Encoded(envelope: Envelope) | Garbage(magic: bool)

  predicate HasMagic(file: File) { file.Encoded? || file.magic }

  /** The two maps that an unlocked vault holds in memory. */
  datatype Maps = Maps(entries: map<string, EntryMeta>, sealed: map<string, Box<Bytes>>)

  const EMPTY := Maps(map[], map[])

  function ManifestAad(salt: string): string { MAGIC + salt }

  function PayloadAad(id: string, version: string): string { MAGIC + id + ['\0'] + version }

  function SealPayload(key: Key, id: string, version: string, bytes: Bytes): Box<Bytes> {
    Sealed(key, PayloadAad(id, version), bytes)
  }

  function ParseEnvelope(file: File): Result<Envelope, VaultError> {
    match file
    case Garbage(_) => Err(Corrupt)
    case Encoded(e) =>
      if e.version != 2 || e.manifest == Noise(true) then Err(Corrupt) else Ok(e)
  }

  predicate EntryAccepted(id: string, meta: EntryMeta, sealed: map<string, Box<Bytes>>) {
    SafeLabel(id) && SafeVersion(meta.version) && meta.version in sealed && sealed[meta.version] != Noise(true)
  }

  /** `open_manifest`: equal counts, and every entry points at some sealed payload. */
  predicate ManifestAccepted(entries: map<string, EntryMeta>, sealed: map<string, Box<Bytes>>) {
    |entries| == |sealed| && forall id | id in entries :: EntryAccepted(id, entries[id], sealed)
  }

  function OpenManifest(e: Envelope, key: Key): Result<map<string, EntryMeta>, VaultError> {
    match Open(key, ManifestAad(e.salt), e.manifest)
    case None => Err(AuthenticationOrCorrupt)
    case Some(m) =>
      if m.version != 2 || !ManifestAccepted(m.entries, e.sealed) then Err(Corrupt) else Ok(m.entries)
  }

  /** What a reload makes of the file, before it compares manifests. */
  function Load(file: File, key: Key, salt: string): Result<Maps, VaultError> {
    match ParseEnvelope(file)
    case Err(e) => Err(e)
    case Ok(e) =>
      if e.salt != salt then Err(AuthenticationOrCorrupt) else
      match OpenManifest(e, key)
      case Err(err) => Err(err)
      case Ok(entries) => Ok(Maps(entries, e.sealed))
  }

  /** What `persist` writes for the two maps. */
  function EncodeFile(m: Maps, key: Key, salt: string): File {
    Encoded(Envelope(2, salt, Sealed(key, ManifestAad(salt), Manifest(2, m.entries)), m.sealed))
  }

  predicate EntryOpens(id: string, m: Maps, key: Key)
    requires id in m.entries
  {
    && m.entries[id].version in m.sealed
    && Open(key, PayloadAad(id, m.entries[id].version), m.sealed[m.entries[id].version]).Some?
  }

  /** `verify_all`: the file opens and so does the payload of every entry. */
  predicate VerifyAll(file: File, key: Key) {
    match ParseEnvelope(file)
    case Err(_) => false
    case Ok(e) =>
      match OpenManifest(e, key)
      case Err(_) => false
      case Ok(entries) => forall id | id in entries :: EntryOpens(id, Maps(entries, e.sealed), key)
  }

  predicate VersionsDistinct(entries: map<string, EntryMeta>) {
    forall a, b | a in entries && b in entries && entries[a].version == entries[b].version :: a == b
  }

  function Versions(entries: map<string, EntryMeta>): set<string> {
    set id | id in entries :: entries[id].version
  }

  /** Manifest and sealed store in bijection. */
  predicate Bijective(m: Maps) {
    VersionsDistinct(m.entries) && Versions(m.entries) == m.sealed.Keys
  }

  /** The maps of an intact vault: a bijection in which every payload opens for its own entry. */
  predicate Faithful(m: Maps, key: Key) {
    && Bijective(m)
    && (forall id | id in m.entries :: SafeLabel(id) && SafeVersion(m.entries[id].version))
    && (forall id | id in m.entries :: EntryOpens(id, m, key))
  }

  /** A file that opens, with intact maps. */
  ghost predicate Intact(file: File, key: Key, salt: string) {
    Load(file, key, salt).Ok? && Faithful(Load(file, key, salt).value, key)
  }

  ghost function MapsIn(file: File, key: Key, salt: string): Maps
    requires Intact(file, key, salt)
  {
    Load(file, key, salt).value
  }

  // ---- associated data binds a payload to one entry and version ----

  lemma PayloadAadInjective(id1: string, v1: string, id2: string, v2: string)
    requires SafeLabel(id1) && SafeLabel(id2)
    requires PayloadAad(id1, v1) == PayloadAad(id2, v2)
    ensures id1 == id2 && v1 == v2
  {
    var a1, a2 := PayloadAad(id1, v1), PayloadAad(id2, v2);
    var n := |MAGIC|;
    assert a1[n + |id1|] == '\0' && a2[n + |id2|] == '\0';
    assert forall k | 0 <= k < |id1| :: a1[n + k] == id1[k] && id1[k] in id1;
    assert forall k | 0 <= k < |id2| :: a2[n + k] == id2[k] && id2[k] in id2;
    assert |id1| == |id2|;
    assert a1[n..n + |id1|] == id1 && a2[n..n + |id2|] == id2;
    assert a1[n + |id1| + 1..] == v1 && a2[n + |id2| + 1..] == v2;
  }

  // ---- the count check and the bijection ----

  lemma VersionsWithout(entries: map<string, EntryMeta>, id: string)
    requires VersionsDistinct(entries) && id in entries
    ensures VersionsDistinct(entries - {id}) && entries[id].version !in Versions(entries - {id})
    ensures Versions(entries) == Versions(entries - {id}) + {entries[id].version}
  {
    var rest := entries - {id};
    assert forall other | other in rest :: other in entries && rest[other] == entries[other];
    forall v | v in Versions(entries) ensures v in Versions(rest) + {entries[id].version} {
      var other :| other in entries && entries[other].version == v;
      assert other != id ==> rest[other].version == v;
    }
  }

  lemma {:induction false} DistinctVersionsCount(entries: map<string, EntryMeta>)
    requires VersionsDistinct(entries)
    ensures |Versions(entries)| == |entries|
    decreases |entries|
  {
    if entries != map[] {
      var id :| id in entries;
      assert entries.Keys == (entries - {id}).Keys + {id};
      DistinctVersionsCount(entries - {id});
      VersionsWithout(entries, id);
    }
  }

  lemma SubsetOfEqualSize<T>(a: set<T>, b: set<T>)
    requires a <= b && |a| == |b|
    ensures a == b
  {
    assert |b - a| == |b| - |a|;
  }

  /** The check made on opening amounts to a bijection exactly when no version is shared. */
  lemma AcceptedIsBijectiveIffVersionsDistinct(m: Maps)
    requires ManifestAccepted(m.entries, m.sealed)
    ensures Bijective(m) <==> VersionsDistinct(m.entries)
  {
    if VersionsDistinct(m.entries) {
      DistinctVersionsCount(m.entries);
      SubsetOfEqualSize(Versions(m.entries), m.sealed.Keys);
    }
  }

  /** Two entries that share one version, beside an orphan payload, pass the check made on opening. */
  lemma CountCheckAdmitsSharedVersion(key: Key)
    ensures exists m: Maps :: ManifestAccepted(m.entries, m.sealed) && !Bijective(m)
  {
    var meta := EntryMeta(Text, "1");
    var m := Maps(map["a" := meta, "b" := meta],
                  map["1" := SealPayload(key, "a", "1", []), "2" := SealPayload(key, "b", "2", [])]);
    assert m.entries.Keys == {"a", "b"} && m.sealed.Keys == {"1", "2"};
    assert |m.entries| == 2 && |m.sealed| == 2;
    assert "2" !in Versions(m.entries);
    assert ManifestAccepted(m.entries, m.sealed);
  }

  /** Full verification leaves no such file: it accepts exactly the files whose maps are intact. */
  lemma VerifyAllIffFaithful(e: Envelope, key: Key)
    requires ParseEnvelope(Encoded(e)).Ok?
    ensures VerifyAll(Encoded(e), key) <==>
            Load(Encoded(e), key, e.salt).Ok? && Faithful(Load(Encoded(e), key, e.salt).value, key)
  {
    var loaded := Load(Encoded(e), key, e.salt);
    if VerifyAll(Encoded(e), key) {
      var m := loaded.value;
      forall a, b | a in m.entries && b in m.entries && m.entries[a].version == m.entries[b].version
        ensures a == b
      {
        assert EntryOpens(a, m, key) && EntryOpens(b, m, key);
        PayloadAadInjective(a, m.entries[a].version, b, m.entries[b].version);
      }
      AcceptedIsBijectiveIffVersionsDistinct(m);
    }
  }

  /** What is persisted for intact maps loads again as the same maps, and only under the same key. */
  lemma EncodeLoads(m: Maps, key: Key, salt: string)
    requires Faithful(m, key)
    ensures Load(EncodeFile(m, key, salt), key, salt) == Ok(m)
    ensures VerifyAll(EncodeFile(m, key, salt), key)
    ensures forall other: Key | other != key :: Load(EncodeFile(m, key, salt), other, salt) == Err(AuthenticationOrCorrupt)
  {
    DistinctVersionsCount(m.entries);
    forall id | id in m.entries ensures EntryAccepted(id, m.entries[id], m.sealed) {
      assert EntryOpens(id, m, key);
    }
    assert ManifestAccepted(m.entries, m.sealed);
  }
}
