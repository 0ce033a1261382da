/**
 * The stored OAuth credential: chunks under a fresh generation, and one small head entry as the commit point.
 * The key store remembers every content it ever had, so that a crash can be placed at any write and a concurrent
 * reader can read each entry from a different moment.
 */
module Credential {
  import opened Basics
  import opened Decimal
  import opened Drive

  const CHUNK := 2000
  const MAX_ENCODED := 64 * 1024
  const MAX_CHUNKS := 33

  /** What an entry of the key store holds: a head (its JSON idealised), a chunk, or something else. */
  datatype Blob = HeadBlob(generation: string, chunks: nat) | ChunkBlob(bytes: Bytes) | Foreign

  type Content = map<string, Blob>

  predicate ValidId(id: string) {
    0 < |id| <= 256 && forall c | c in id :: AsciiAlnum(c) || c == '_' || c == '-' || c == '!'
  }

  function ChunkId(id: string, generation: string, index: nat): string {
    id + "-" + generation + "-" + Digits(index)
  }

  // ---- names do not collide ----

  /** Behind the last dash there are only digits. */
  lemma LastDash(p: string, d: string, q: string, e: string)
    requires p + "-" + d == q + "-" + e && AllDigits(d) && AllDigits(e)
    ensures p == q && d == e
  {
    var a, b := p + "-" + d, q + "-" + e;
    assert a[|p|] == '-' && b[|q|] == '-';
    assert forall k | |p| < k < |a| :: a[k] == d[k - |p| - 1] && d[k - |p| - 1] in d;
    assert forall k | |q| < k < |b| :: b[k] == e[k - |q| - 1] && e[k - |q| - 1] in e;
    assert |p| == |q|;
    assert a[..|p|] == p && b[..|q|] == q && a[|p| + 1..] == d && b[|q| + 1..] == e;
  }

  /** So the names of one credential never coincide. */
  lemma ChunkIdInjective(id: string, g: string, i: nat, h: string, j: nat)
    requires ChunkId(id, g, i) == ChunkId(id, h, j)
    ensures g == h && i == j
  {
    DigitsAreDigits(i);
    DigitsAreDigits(j);
    LastDash(id + "-" + g, Digits(i), id + "-" + h, Digits(j));
    assert (id + "-" + g)[|id| + 1..] == g && (id + "-" + h)[|id| + 1..] == h;
    DigitsInjective(i, j);
  }

  /** Ids and generations of equal lengths, as `random_id` makes them, keep different credentials apart. */
  lemma ChunkIdSeparatesCredentials(id: string, g: string, i: nat, other: string, h: string, j: nat)
    requires |id| == |other| && ChunkId(id, g, i) == ChunkId(other, h, j)
    ensures id == other && g == h && i == j
  {
    assert ChunkId(id, g, i)[..|id|] == id && ChunkId(other, h, j)[..|id|] == other;
    ChunkIdInjective(id, g, i, h, j);
  }

  /** Without equal lengths they can coincide. */
  lemma ChunkIdCollision()
    ensures ChunkId("a", "b-c", 0) == ChunkId("a-b", "c", 0)
  {
    assert ChunkId("a", "b-c", 0) == "a-b-c-0" == ChunkId("a-b", "c", 0);
  }

  lemma ChunkIdIsNotId(id: string, g: string, i: nat)
    ensures ChunkId(id, g, i) != id
  {
    assert |ChunkId(id, g, i)| > |id|;
  }

  // ---- cutting and joining ----

  function Min(a: int, b: int): int { if a < b then a else b }

  function Pieces(bytes: Bytes): nat { (|bytes| + CHUNK - 1) / CHUNK }

  function Piece(bytes: Bytes, i: nat): Bytes
    requires i < Pieces(bytes)
  {
    bytes[CHUNK * i..Min(CHUNK * (i + 1), |bytes|)]
  }

  /** The size limit gives exactly the chunk counts that the head check accepts. */
  lemma ChunkCounts(n: nat)
    ensures 1 <= n <= MAX_CHUNKS <==> exists bytes: Bytes :: 0 < |bytes| <= MAX_ENCODED && Pieces(bytes) == n
  {
    if 1 <= n <= MAX_CHUNKS {
      var length := Min(CHUNK * n, MAX_ENCODED);
      var bytes: Bytes := seq(length, _ => 0);
      assert Pieces(bytes) == n;
    }
  }

  // ---- reading ----

  datatype Head = Head(generation: string, chunks: nat)

  /** `head` on one content. */
  function HeadAt(m: Content, id: string): Result<Option<Head>, DriveError> {
    if !ValidId(id) then Err(DriveError.InvalidInput)
    else if id !in m then Ok(None)
    else match m[id]
      case HeadBlob(g, n) => if ValidId(g) && 1 <= n <= MAX_CHUNKS then Ok(Some(Head(g, n))) else Err(CredentialStore)
      case _ => Err(CredentialStore)
  }

  /** The first `n` chunks, the one with index `i` taken from the content seen at that moment. */
  function ChunksAcross(seen: nat -> Content, id: string, g: string, n: nat): Result<Bytes, DriveError> {
    if n == 0 then Ok([]) else
    match ChunksAcross(seen, id, g, n - 1)
    case Err(e) => Err(e)
    case Ok(before) =>
      var key := ChunkId(id, g, n - 1);
      if !ValidId(key) then Err(DriveError.InvalidInput)
      else if key !in seen(n - 1) || !seen(n - 1)[key].ChunkBlob? || |seen(n - 1)[key].bytes| > CHUNK then Err(CredentialStore)
      else Ok(before + seen(n - 1)[key].bytes)
  }

  /** The first chunk that cannot be read decides. */
  lemma {:induction false} FirstErrorStays(seen: nat -> Content, id: string, g: string, m: nat, n: nat)
    requires m <= n && ChunksAcross(seen, id, g, m).Err?
    ensures ChunksAcross(seen, id, g, n) == ChunksAcross(seen, id, g, m)
  {
    if m < n {
      FirstErrorStays(seen, id, g, m, n - 1);
    }
  }

  /** `read_credential`: the head from `first`, each chunk from whatever content the store has by then. */
  function ReadAcross(first: Content, seen: nat -> Content, id: string): Result<Bytes, DriveError> {
    match HeadAt(first, id)
    case Err(e) => Err(e)
    case Ok(None) => Err(Authorization)
    case Ok(Some(h)) => ChunksAcross(seen, id, h.generation, h.chunks)
  }

  function Always(m: Content): nat -> Content { _ => m }

  function ReadAt(m: Content, id: string): Result<Bytes, DriveError> { ReadAcross(m, Always(m), id) }

  // ---- what the store may hold ----

  /** Every chunk is a piece of what its generation was written with, and the head counts that generation's pieces. */
  ghost predicate Kept(m: Content, id: string, book: map<string, Bytes>) {
    && (forall g, i: nat | ChunkId(id, g, i) in m ::
          g in book && i < Pieces(book[g]) && m[ChunkId(id, g, i)] == ChunkBlob(Piece(book[g], i)))
    && (id in m && m[id].HeadBlob? ==> m[id].generation in book && m[id].chunks == Pieces(book[m[id].generation]))
  }

  lemma {:induction false} ChunksAreJoined(seen: nat -> Content, id: string, g: string, n: nat, book: map<string, Bytes>)
    requires forall k: nat :: Kept(seen(k), id, book)
    requires g in book && n <= Pieces(book[g])
    ensures ChunksAcross(seen, id, g, n).Ok? ==> ChunksAcross(seen, id, g, n).value == book[g][..Min(CHUNK * n, |book[g]|)]
    ensures (forall i: nat | i < n :: ValidId(ChunkId(id, g, i)) && ChunkId(id, g, i) in seen(i)) <==> ChunksAcross(seen, id, g, n).Ok?
  {
    if n > 0 {
      ChunksAreJoined(seen, id, g, n - 1, book);
      assert Kept(seen(n - 1), id, book);
      var key := ChunkId(id, g, n - 1);
      if key in seen(n - 1) {
        var whole := book[g];
        assert |Piece(whole, n - 1)| <= CHUNK;
        assert whole[..Min(CHUNK * (n - 1), |whole|)] + Piece(whole, n - 1) == whole[..Min(CHUNK * n, |whole|)];
      }
    }
  }

  /**
   * A reader that runs beside any number of saves gets an error or the complete bytes of the one generation whose
   * head it read, never a mixture, whichever moment each of its reads falls on.
   */
  lemma ConcurrentReadNeverMixes(first: Content, seen: nat -> Content, id: string, book: map<string, Bytes>)
    requires Kept(first, id, book) && forall k: nat :: Kept(seen(k), id, book)
    requires ReadAcross(first, seen, id).Ok?
    ensures id in first && first[id].HeadBlob? && first[id].generation in book
    ensures ReadAcross(first, seen, id).value == book[first[id].generation]
  {
    var g := first[id].generation;
    ChunksAreJoined(seen, id, g, Pieces(book[g]), book);
  }

  /** A content whose head names a generation with all its chunks in place reads back what that generation was written with. */
  lemma CompleteReads(m: Content, id: string, book: map<string, Bytes>)
    requires Kept(m, id, book) && ValidId(id)
    requires id in m && m[id].HeadBlob? && ValidId(m[id].generation) && 1 <= m[id].chunks <= MAX_CHUNKS
    requires forall i: nat | i < m[id].chunks ::
               ValidId(ChunkId(id, m[id].generation, i)) && ChunkId(id, m[id].generation, i) in m
    ensures ReadAt(m, id) == Ok(book[m[id].generation])
  {
    var g := m[id].generation;
    assert forall k: nat :: Always(m)(k) == m;
    ChunksAreJoined(Always(m), id, g, Pieces(book[g]), book);
    assert HeadAt(m, id) == Ok(Some(Head(g, Pieces(book[g]))));
    assert forall i: nat | i < Pieces(book[g]) :: ValidId(ChunkId(id, g, i)) && ChunkId(id, g, i) in Always(m)(i);
    assert book[g][..|book[g]|] == book[g];
  }

  /** Reading looks at nothing but the head and the chunks of the generation it names. */
  lemma {:induction false} ChunksFrame(m: Content, was: Content, id: string, g: string, n: nat)
    requires forall i: nat | i < n :: AgreeAt(m, was, ChunkId(id, g, i))
    ensures ChunksAcross(Always(m), id, g, n) == ChunksAcross(Always(was), id, g, n)
  {
    if n > 0 {
      ChunksFrame(m, was, id, g, n - 1);
      assert AgreeAt(m, was, ChunkId(id, g, n - 1));
    }
  }

  predicate AgreeAt(m: Content, was: Content, key: string) {
    (key in m <==> key in was) && (key in m ==> m[key] == was[key])
  }

  lemma ReadFrame(m: Content, was: Content, id: string)
    requires AgreeAt(m, was, id)
    requires id in was && was[id].HeadBlob? ==>
               forall i: nat | i < was[id].chunks :: AgreeAt(m, was, ChunkId(id, was[id].generation, i))
    ensures ReadAt(m, id) == ReadAt(was, id)
  {
    match HeadAt(was, id)
    case Ok(Some(h)) => ChunksFrame(m, was, id, h.generation, h.chunks);
    case _ =>
  }

  /** With entries missing, a read fails or returns what it did. */
  lemma {:induction false} ChunksFromLess(m: Content, was: Content, id: string, g: string, n: nat)
    requires forall key | key in m :: key in was && m[key] == was[key]
    ensures ChunksAcross(Always(m), id, g, n).Ok? ==> ChunksAcross(Always(m), id, g, n) == ChunksAcross(Always(was), id, g, n)
  {
    if n > 0 {
      ChunksFromLess(m, was, id, g, n - 1);
    }
  }

  /** Only entries whose name begins with the id differ; a credential of another id of that length is not among them. */
  ghost predicate SameOutside(m: Content, was: Content, id: string) {
    forall key: string | !(id <= key) :: AgreeAt(m, was, key)
  }

  lemma SameOutsideTransitive(m: Content, mid: Content, was: Content, id: string)
    requires SameOutside(m, mid, id) && SameOutside(mid, was, id)
    ensures SameOutside(m, was, id)
  {
    forall key: string | !(id <= key) ensures AgreeAt(m, was, key) {
      assert AgreeAt(m, mid, key) && AgreeAt(mid, was, key);
    }
  }

  lemma OtherCredentialsUntouched(m: Content, was: Content, id: string, other: string)
    requires SameOutside(m, was, id) && |other| == |id| && other != id
    ensures ReadAt(m, other) == ReadAt(was, other)
  {
    assert !(id <= other);
    forall g: string, i: nat ensures AgreeAt(m, was, ChunkId(other, g, i)) {
      assert ChunkId(other, g, i)[..|id|] == other;
    }
    ReadFrame(m, was, other);
  }

  /** `m` is `was` without some chunks of one generation. */
  ghost predicate Pruned(m: Content, was: Content, id: string, g: string) {
    && (forall key | key in m :: key in was && m[key] == was[key])
    && (forall key | key in was && key !in m :: exists i: nat :: key == ChunkId(id, g, i))
  }

  /** Removing chunks keeps every other generation readable, and never makes a read return something else. */
  lemma PrunedReads(m: Content, was: Content, id: string, g: string, book: map<string, Bytes>)
    requires Pruned(m, was, id, g) && Kept(was, id, book)
    ensures Kept(m, id, book) && SameOutside(m, was, id) && AgreeAt(m, was, id)
    ensures (id in was && was[id].HeadBlob? ==> was[id].generation != g) ==> ReadAt(m, id) == ReadAt(was, id)
    ensures ReadAt(m, id).Ok? ==> ReadAt(m, id) == ReadAt(was, id)
  {
    forall key: string | key in was && key !in m ensures id <= key && key != id {
      var i: nat :| key == ChunkId(id, g, i);
      ChunkIdIsNotId(id, g, i);
      assert ChunkId(id, g, i)[..|id|] == id;
    }
    if id in was && was[id].HeadBlob? {
      var h := was[id].generation;
      if h != g {
        forall i: nat ensures AgreeAt(m, was, ChunkId(id, h, i)) {
          if ChunkId(id, h, i) in was && ChunkId(id, h, i) !in m {
            var j: nat :| ChunkId(id, h, i) == ChunkId(id, g, j);
            ChunkIdInjective(id, h, i, g, j);
          }
        }
        ReadFrame(m, was, id);
      }
      ChunksFromLess(m, was, id, h, was[id].chunks);
    } else {
      ReadFrame(m, was, id);
    }
  }

  /** Chunks of a generation the head does not name can come and go. */
  lemma ForeignChunkKeepsRead(m: Content, was: Content, id: string, g: string, i: nat)
    requires forall key: string | key != ChunkId(id, g, i) :: AgreeAt(m, was, key)
    requires id in was && was[id].HeadBlob? ==> was[id].generation != g
    ensures ReadAt(m, id) == ReadAt(was, id) && SameOutside(m, was, id)
  {
    ChunkIdIsNotId(id, g, i);
    assert ChunkId(id, g, i)[..|id|] == id;
    if id in was && was[id].HeadBlob? {
      forall j: nat ensures AgreeAt(m, was, ChunkId(id, was[id].generation, j)) {
        if ChunkId(id, was[id].generation, j) == ChunkId(id, g, i) {
          ChunkIdInjective(id, was[id].generation, j, g, i);
        }
      }
    }
    ReadFrame(m, was, id);
  }

  lemma ChunkWritten(m: Content, was: Content, id: string, g: string, i: nat, book: map<string, Bytes>)
    requires Kept(was, id, book) && g in book && i < Pieces(book[g])
    requires m == was || m == was[ChunkId(id, g, i) := ChunkBlob(Piece(book[g], i))]
    ensures Kept(m, id, book)
  {
    forall h: string, j: nat | ChunkId(id, h, j) == ChunkId(id, g, i) ensures h == g && j == i {
      ChunkIdInjective(id, h, j, g, i);
    }
    ChunkIdIsNotId(id, g, i);
  }

  lemma HeadWritten(m: Content, was: Content, id: string, g: string, book: map<string, Bytes>)
    requires Kept(was, id, book) && g in book
    requires m == was[id := HeadBlob(g, Pieces(book[g]))]
    ensures Kept(m, id, book) && SameOutside(m, was, id)
  {
    forall h: string, j: nat ensures ChunkId(id, h, j) != id {
      ChunkIdIsNotId(id, h, j);
    }
  }

  /**
   * Why `lost` has to be excluded: once the head names the new generation, cleaning up that generation leaves the
   * credential readable exactly while no chunk of it has been removed, and the old bytes never come back.
   */
  lemma CleanupBehindLandedHead(m: Content, after: Content, id: string, book: map<string, Bytes>)
    requires Kept(m, id, book) && ReadAt(m, id).Ok? && Pruned(after, m, id, m[id].generation)
    ensures ReadAt(after, id).Ok? <==> forall i: nat | i < m[id].chunks :: ChunkId(id, m[id].generation, i) in after
    ensures ReadAt(after, id).Ok? ==> ReadAt(after, id) == ReadAt(m, id)
  {
    var g := m[id].generation;
    PrunedReads(after, m, id, g, book);
    assert forall k: nat :: Always(m)(k) == m && Always(after)(k) == after;
    ChunksAreJoined(Always(m), id, g, m[id].chunks, book);
    ChunksAreJoined(Always(after), id, g, m[id].chunks, book);
  }

  lemma OneChunkReads(m: Content, id: string, g: string, b: byte)
    requires ValidId(id) && ValidId(g) && ValidId(ChunkId(id, g, 0))
    requires id in m && m[id] == HeadBlob(g, 1)
    requires ChunkId(id, g, 0) in m ==> m[ChunkId(id, g, 0)] == ChunkBlob([b])
    ensures ReadAt(m, id) == if ChunkId(id, g, 0) in m then Ok([b]) else Err(CredentialStore)
  {
    var none: Bytes := [];
    assert ChunksAcross(Always(m), id, g, 0) == Ok(none);
    assert Always(m)(0) == m && none + [b] == [b];
  }

  /**
   * Such a case: the head of a second generation takes effect behind an error, and the cleanup removes its chunk.
   * Then neither the old nor the new bytes can be read, although the chunk of the old ones is still there.
   */
  lemma LostHeadLosesBoth()
    ensures var was: Content := map["a" := HeadBlob("g", 1), ChunkId("a", "g", 0) := ChunkBlob([1])];
            var landed := was[ChunkId("a", "h", 0) := ChunkBlob([2])]["a" := HeadBlob("h", 1)];
            var after := landed - {ChunkId("a", "h", 0)};
            && ReadAt(was, "a") == Ok([1]) && ReadAt(landed, "a") == Ok([2])
            && Pruned(after, landed, "a", "h") && ReadAt(after, "a").Err? && ChunkId("a", "g", 0) in after
  {
    var before, next := ChunkId("a", "g", 0), ChunkId("a", "h", 0);
    assert before == "a-g-0" && next == "a-h-0";
    var was: Content := map["a" := HeadBlob("g", 1), before := ChunkBlob([1])];
    var landed := was[next := ChunkBlob([2])]["a" := HeadBlob("h", 1)];
    var after := landed - {next};
    OneChunkReads(was, "a", "g", 1);
    OneChunkReads(landed, "a", "h", 2);
    OneChunkReads(after, "a", "h", 2);
  }

  /** What every moment of a save from `was` must satisfy. */
  ghost predicate OldOrNew(m: Content, was: Content, id: string, encoded: Bytes) {
    && SameOutside(m, was, id)
    && (ReadAt(m, id) == ReadAt(was, id) || ReadAt(m, id) == Ok(encoded))
  }

  /** What every moment of a disconnect, and of a save whose head landed behind an error, still satisfies. */
  ghost predicate OneOrNone(m: Content, was: Content, id: string, bytes: Result<Bytes, DriveError>) {
    SameOutside(m, was, id) && (ReadAt(m, id) == bytes || ReadAt(m, id).Err?)
  }

  /** All chunk names are short enough for the key store, as they are for the ids and generations that the program draws. */
  predicate Nameable(id: string, head: Head) {
    forall i: nat | i < head.chunks :: ValidId(ChunkId(id, head.generation, i))
  }

  /** A head that can be read, if there is one, and chunks that can be named. */
  predicate Replaceable(m: Content, id: string) {
    ValidId(id) && HeadAt(m, id).Ok? && (HeadAt(m, id).value.Some? ==> Nameable(id, HeadAt(m, id).value.value))
  }

  predicate NoneLeft(m: Content, id: string, head: Option<Head>) {
    head.Some? ==> forall i: nat | i < head.value.chunks :: ChunkId(id, head.value.generation, i) !in m
  }

  /** `SameOutside` and the reads along a removal of chunks that starts at `mid`. */
  lemma PrunedMoment(m: Content, mid: Content, was: Content, id: string, g: string, book: map<string, Bytes>)
    requires Pruned(m, mid, id, g) && Kept(mid, id, book) && SameOutside(mid, was, id)
    ensures Kept(m, id, book) && SameOutside(m, was, id) && AgreeAt(m, mid, id)
    ensures (id in mid && mid[id].HeadBlob? ==> mid[id].generation != g) ==> ReadAt(m, id) == ReadAt(mid, id)
    ensures ReadAt(m, id) == ReadAt(mid, id) || ReadAt(m, id).Err?
  {
    PrunedReads(m, mid, id, g, book);
    SameOutsideTransitive(m, mid, was, id);
  }

  /**
   * The operating system's key store. A write or a deletion may report an error, having taken effect or not.
   * `trace` is every content so far, the last one current; `book` is what each generation was written with; `faults`
   * counts the calls that reported an error for no reason in the model.
   */
  class KeyStore {
    var entries: Content
    ghost var trace: seq<Content>
    ghost var book: map<string, Bytes>
    ghost var faults: nat

    ghost predicate Valid()
      reads this
    {
      |trace| > 0 && trace[|trace| - 1] == entries
    }

    ghost predicate Sound(id: string)
      reads this
    {
      Valid() && forall k | 0 <= k < |trace| :: Kept(trace[k], id, book)
    }

    /** An empty key store, which is sound for every credential. */
    constructor ()
      ensures entries == map[] && trace == [entries] && book == map[]
      ensures forall id :: Sound(id)
    {
      entries, trace, book, faults := map[], [map[]], map[], 0;
    }

    method SetEntry(key: string, blob: Blob) returns (r: Result<(), DriveError>, ghost landed: bool)
      requires Valid()
      modifies this
      ensures Valid() && book == old(book) && trace == old(trace) + [entries]
      ensures entries == if landed then old(entries)[key := blob] else old(entries)
      ensures r.Ok? ==> landed && ValidId(key)
      ensures old(faults) <= faults && (r.Err? ==> !ValidId(key) || old(faults) < faults)
    {
      landed := false;
      r := Err(DriveError.InvalidInput);
      if ValidId(key) {
        r := Err(CredentialStore);
        if * {
          entries := entries[key := blob];
          landed := true;
          if * {
            r := Ok(());
          }
        }
        faults := if r.Ok? then faults else faults + 1;
      }
      trace := trace + [entries];
    }

    method RemoveEntry(key: string) returns (r: Result<(), DriveError>)
      requires Valid()
      modifies this
      ensures Valid() && book == old(book) && trace == old(trace) + [entries]
      ensures entries == old(entries) || entries == old(entries) - {key}
      ensures r.Ok? ==> key !in entries
      ensures old(faults) <= faults && (r.Err? ==> !ValidId(key) || old(faults) < faults)
    {
      r := Err(DriveError.InvalidInput);
      if ValidId(key) {
        r := Err(CredentialStore);
        if * {
          entries := entries - {key};
          if * {
            r := Ok(());
          }
        }
        faults := if r.Ok? then faults else faults + 1;
      }
      trace := trace + [entries];
    }

    method GetEntry(key: string) returns (r: Result<Option<Blob>, DriveError>)
      modifies this`faults
      ensures old(faults) <= faults
      ensures r.Err? ==> r.error == (if ValidId(key) then CredentialStore else DriveError.InvalidInput)
      ensures r.Err? && faults == old(faults) ==> !ValidId(key)
      ensures r.Ok? ==> ValidId(key) && r.value == if key in entries then Some(entries[key]) else None
    {
      if !ValidId(key) {
        return Err(DriveError.InvalidInput);
      }
      if * {
        faults := faults + 1;
        return Err(CredentialStore);
      }
      r := Ok(if key in entries then Some(entries[key]) else None);
    }

    method ReadHead(id: string) returns (r: Result<Option<Head>, DriveError>)
      modifies this`faults
      ensures old(faults) <= faults
      ensures r.Ok? || faults == old(faults) ==> r == HeadAt(entries, id)
    {
      var value := GetEntry(id);
      match value
      case Err(e) => return Err(e);
      case Ok(None) => return Ok(None);
      case Ok(Some(HeadBlob(g, n))) =>
        if !ValidId(g) || !(1 <= n <= MAX_CHUNKS) {
          return Err(CredentialStore);
        }
        return Ok(Some(Head(g, n)));
      case Ok(Some(_)) => return Err(CredentialStore);
    }

    /** `read_credential`: it returns all the bytes the head promises, or an error, and without a fault exactly the reading. */
    method ReadCredential(id: string) returns (r: Result<Bytes, DriveError>)
      modifies this`faults
      ensures old(faults) <= faults
      ensures r.Ok? || faults == old(faults) ==> r == ReadAt(entries, id)
    {
      var head := ReadHead(id);
      if head.Err? {
        return Err(head.error);
      }
      if head.value.None? {
        return Err(Authorization);
      }
      var g, n := head.value.value.generation, head.value.value.chunks;
      var bytes: Bytes := [];
      var index := 0;
      while index < n
        invariant index <= n
        invariant ChunksAcross(Always(entries), id, g, index) == Ok(bytes)
        invariant old(faults) <= faults
      {
        var chunk := GetEntry(ChunkId(id, g, index));
        if ChunksAcross(Always(entries), id, g, index + 1).Err? {
          FirstErrorStays(Always(entries), id, g, index + 1, n);
        }
        if chunk.Err? {
          return Err(chunk.error);
        }
        if chunk.value.None? || !chunk.value.value.ChunkBlob? || |chunk.value.value.bytes| > CHUNK {
          return Err(CredentialStore);
        }
        bytes := bytes + chunk.value.value.bytes;
        index := index + 1;
      }
      r := Ok(bytes);
    }

    method RemoveChunks(id: string, head: Head) returns (r: Result<(), DriveError>)
      requires Valid()
      modifies this
      ensures Valid() && book == old(book) && old(trace) <= trace
      ensures forall k | |old(trace)| - 1 <= k < |trace| :: Pruned(trace[k], old(entries), id, head.generation)
      ensures r.Ok? ==> forall i: nat | i < head.chunks :: ChunkId(id, head.generation, i) !in entries
      ensures old(faults) <= faults && (r.Err? && Nameable(id, head) ==> old(faults) < faults)
    {
      var index := 0;
      while index < head.chunks
        invariant index <= head.chunks
        invariant Valid() && book == old(book) && old(trace) <= trace
        invariant forall k | |old(trace)| - 1 <= k < |trace| :: Pruned(trace[k], old(entries), id, head.generation)
        invariant Pruned(entries, old(entries), id, head.generation)
        invariant forall i: nat | i < index :: ChunkId(id, head.generation, i) !in entries
        invariant old(faults) <= faults
      {
        var removed := RemoveEntry(ChunkId(id, head.generation, index));
        if removed.Err? {
          return removed;
        }
        index := index + 1;
      }
      r := Ok(());
    }

    /** The closure inside `save`: the chunks, then the head. */
    method WriteGeneration(id: string, encoded: Bytes, next: Head) returns (r: Result<(), DriveError>, ghost lost: bool)
      requires Sound(id) && 0 < |encoded| <= MAX_ENCODED
      requires next.generation in book && book[next.generation] == encoded && next.chunks == Pieces(encoded)
      requires ValidId(next.generation) && ValidId(id)
      requires id in entries && entries[id].HeadBlob? ==> entries[id].generation != next.generation
      modifies this
      ensures Sound(id) && old(trace) <= trace && book == old(book)
      ensures forall k | |old(trace)| - 1 <= k < |trace| :: OldOrNew(trace[k], old(entries), id, encoded)
      ensures lost ==> r.Err?
      ensures old(faults) <= faults && (r.Err? && Nameable(id, next) ==> old(faults) < faults)
      ensures r.Ok? || lost ==> ReadAt(entries, id) == Ok(encoded) && id in entries && entries[id] == HeadBlob(next.generation, next.chunks)
      ensures r.Err? && !lost ==> AgreeAt(entries, old(entries), id) && ReadAt(entries, id) == ReadAt(old(entries), id)
    {
      lost := false;
      var g := next.generation;
      var index := 0;
      while index < next.chunks
        invariant index <= next.chunks
        invariant Sound(id) && old(trace) <= trace && book == old(book)
        invariant AgreeAt(entries, old(entries), id) && SameOutside(entries, old(entries), id)
        invariant ReadAt(entries, id) == ReadAt(old(entries), id)
        invariant forall k | |old(trace)| - 1 <= k < |trace| :: OldOrNew(trace[k], old(entries), id, encoded)
        invariant forall i: nat | i < index :: ValidId(ChunkId(id, g, i)) && ChunkId(id, g, i) in entries
        invariant old(faults) <= faults
      {
        ghost var was := entries;
        ghost var landed;
        r, landed := SetEntry(ChunkId(id, g, index), ChunkBlob(Piece(encoded, index)));
        ChunkWritten(entries, was, id, g, index, book);
        ForeignChunkKeepsRead(entries, was, id, g, index);
        SameOutsideTransitive(entries, was, old(entries), id);
        ChunkIdIsNotId(id, g, index);
        if r.Err? {
          return;
        }
        index := index + 1;
      }
      ghost var was := entries;
      ghost var landed;
      r, landed := SetEntry(id, HeadBlob(g, next.chunks));
      lost := landed && r.Err?;
      if landed {
        HeadWritten(entries, was, id, g, book);
        SameOutsideTransitive(entries, was, old(entries), id);
        CompleteReads(entries, id, book);
      }
    }

    /**
     * `save`. Outside `lost`, the head write that took effect behind an error, every moment reads as the complete old
     * or the complete new bytes, an answer Ok means new, and the chunks of the old generation are gone. After a lost
     * head the cleanup can leave nothing to read, but never a mixture and never bytes that were not written.
     * `generation` is the fresh random id of the new chunks.
     */
    method Save(id: string, encoded: Bytes, generation: string) returns (r: Result<(), DriveError>, ghost lost: bool)
      requires Sound(id) && |encoded| > 0
      requires ValidId(generation) && generation !in book
      modifies this
      ensures Sound(id) && old(trace) <= trace && (book == old(book) || book == old(book)[generation := encoded])
      ensures forall k | |old(trace)| - 1 <= k < |trace| ::
                OldOrNew(trace[k], old(entries), id, encoded) || (lost && OneOrNone(trace[k], old(entries), id, Ok(encoded)))
      ensures !lost ==> ReadAt(entries, id) == ReadAt(old(entries), id) || ReadAt(entries, id) == Ok(encoded)
      ensures lost ==> r.Err? && OneOrNone(entries, old(entries), id, Ok(encoded))
      ensures r.Ok? ==> ReadAt(entries, id) == Ok(encoded)
      ensures r.Ok? ==> HeadAt(old(entries), id).Ok? && NoneLeft(entries, id, HeadAt(old(entries), id).value)
      ensures |encoded| > MAX_ENCODED ==> r.Err? && entries == old(entries)
      ensures r.Err? && faults == old(faults) ==>
                |encoded| > MAX_ENCODED || !Replaceable(old(entries), id) || !Nameable(id, Head(generation, Pieces(encoded)))
      ensures old(faults) <= faults
    {
      lost := false;
      if |encoded| > MAX_ENCODED {
        return Err(CredentialStore), lost;
      }
      var previous := ReadHead(id);
      if previous.Err? {
        return Err(previous.error), lost;
      }
      book := book[generation := encoded];
      var next := Head(generation, Pieces(encoded));
      var write: Result<(), DriveError>;
      write, lost := WriteGeneration(id, encoded, next);
      ghost var mid := entries;
      if write.Err? {
        var cleaned := RemoveChunks(id, next);
        forall k | 0 <= k < |trace| && Pruned(trace[k], mid, id, generation)
          ensures Kept(trace[k], id, book) && SameOutside(trace[k], old(entries), id)
          ensures !lost ==> ReadAt(trace[k], id) == ReadAt(mid, id)
          ensures ReadAt(trace[k], id) == ReadAt(mid, id) || ReadAt(trace[k], id).Err?
        {
          PrunedMoment(trace[k], mid, old(entries), id, generation, book);
        }
        return if cleaned.Err? then cleaned else write, lost;
      }
      if previous.value.Some? {
        var cleaned := RemoveChunks(id, previous.value.value);
        forall k | 0 <= k < |trace| && Pruned(trace[k], mid, id, previous.value.value.generation)
          ensures Kept(trace[k], id, book) && SameOutside(trace[k], old(entries), id)
          ensures ReadAt(trace[k], id) == ReadAt(mid, id)
        {
          PrunedMoment(trace[k], mid, old(entries), id, previous.value.value.generation, book);
        }
        return cleaned, lost;
      }
      r := Ok(());
    }

    /** `disconnect`: every moment reads as before or fails, and success leaves nothing of the credential behind. */
    method Disconnect(id: string) returns (r: Result<(), DriveError>)
      requires Sound(id)
      modifies this
      ensures Sound(id) && old(trace) <= trace && book == old(book)
      ensures forall k | |old(trace)| - 1 <= k < |trace| :: OneOrNone(trace[k], old(entries), id, ReadAt(old(entries), id))
      ensures r.Ok? ==> ReadAt(entries, id) == Err(Authorization)
      ensures r.Err? && faults == old(faults) ==> !Replaceable(old(entries), id)
      ensures r.Ok? ==> HeadAt(old(entries), id).Ok? && NoneLeft(entries, id, HeadAt(old(entries), id).value)
    {
      var head := ReadHead(id);
      if head.Err? {
        return Err(head.error);
      }
      if head.value.Some? {
        r := RemoveChunks(id, head.value.value);
        forall k | 0 <= k < |trace| && Pruned(trace[k], old(entries), id, head.value.value.generation)
          ensures Kept(trace[k], id, book) && SameOutside(trace[k], old(entries), id)
          ensures ReadAt(trace[k], id) == ReadAt(old(entries), id) || ReadAt(trace[k], id).Err?
        {
          PrunedMoment(trace[k], old(entries), old(entries), id, head.value.value.generation, book);
        }
        if r.Err? {
          return;
        }
      }
      ghost var mid := entries;
      r := RemoveEntry(id);
      assert SameOutside(entries, mid, id);
      SameOutsideTransitive(entries, mid, old(entries), id);
      assert id !in entries ==> ReadAt(entries, id) == Err(Authorization);
    }
  }
}
