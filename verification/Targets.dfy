/**
 * What a target is: an object with one place in it, what an apply writes there, and which places are independent of
 * one another. Text is read and written by the transformations of `KeyValue` and `JsonPointer`.
 */
module Targets {
  import opened Basics
  import K = KeyValue
  import J = JsonPointer

  datatype Format = DotEnv | Json | Yaml | Properties

  datatype DockerKind = EnvFile | ComposeEnvironment

  datatype TargetSpec =
    | Fake(slot: string)
    | WholeFile(path: string)
    | StructuredField(path: string, key: string, format: Format)
    | DockerInput(path: string, key: string, input: DockerKind)
    | GitCredential(protocol: string, host: string, scope: Option<string>, username: string)

  datatype Identity = File(path: string) | GitId(protocol: string, host: string, scope: Option<string>) | FakeId(slot: string)

  /** `TargetSpec::identity`: what a target gate is keyed by. */
  function IdentityOf(spec: TargetSpec): Identity {
    match spec
    case Fake(slot) => FakeId(slot)
    case WholeFile(path) => File(path)
    case StructuredField(path, _, _) => File(path)
    case DockerInput(path, _, _) => File(path)
    case GitCredential(protocol, host, scope, _) => GitId(protocol, host, scope)
  }

  /** The bytes of a file, or the entries of a credential store. */
  datatype Content = FileOf(bytes: Bytes) | Store(slots: map<string, Payload>)

  // ---- places ----

  datatype Tree = JsonTree | YamlTree

  datatype Place =
    | Whole
    | Line(style: K.Style, key: string)
    | Node(tree: Tree, path: seq<string>)
    | Slot(name: string)
    | Nowhere

  function TrimSlashes(s: string): string {
    if s != "" && s[0] == '/' then TrimSlashes(s[1..]) else s
  }

  /** The path of a YAML pointer: all leading slashes are dropped, and no part may be empty. */
  function YamlPlace(pointer: string): Place {
    var parts := J.UnescapeAll(J.Split(TrimSlashes(pointer)));
    if "" in parts then Nowhere else Node(YamlTree, parts)
  }

  function SplitOnce(s: string, c: char): Option<(string, string)> {
    if s == "" then None
    else if s[0] == c then Some(("", s[1..]))
    else match SplitOnce(s[1..], c) case None => None case Some((a, b)) => Some(([s[0]] + a, b))
  }

  function ComposePlace(key: string): Place {
    match SplitOnce(key, ':')
    case None => Nowhere
    case Some((service, variable)) => YamlPlace("/services/" + service + "/environment/" + variable)
  }

  /** The part of the object that a spec writes. */
  function PlaceOf(spec: TargetSpec): Place {
    match spec
    case Fake(_) => Slot("")
    case WholeFile(_) => Whole
    case StructuredField(_, key, DotEnv) => Line(K.SingleQuoted, key)
    case StructuredField(_, key, Properties) => Line(K.Properties, key)
    case StructuredField(_, key, Json) => (match J.Path(key) case Some(path) => Node(JsonTree, path) case None => Nowhere)
    case StructuredField(_, key, Yaml) => YamlPlace(key)
    case DockerInput(_, key, EnvFile) => Line(K.SingleQuoted, key)
    case DockerInput(_, key, ComposeEnvironment) => ComposePlace(key)
    case GitCredential(_, _, _, username) => Slot(username)
  }

  /** Places of one object whose writes do not touch each other. */
  predicate Disjoint(a: Place, b: Place) {
    match (a, b)
    case (Nowhere, _) => true
    case (_, Nowhere) => true
    case (Line(s, k), Line(t, l)) => s == t && k != l
    case (Node(s, p), Node(t, q)) => s == t && !J.Comparable(p, q)
    case (Slot(n), Slot(m)) => n != m
    case _ => false
  }

  /** The keys that a configuration may contain (`valid_field_key`, `valid_docker_key`). */
  predicate AcceptedKey(spec: TargetSpec) {
    match spec
    case StructuredField(_, key, format) =>
      if format.DotEnv? || format.Properties? then K.ValidKey(key)
      else |key| > 1 && key[0] == '/' && '\n' !in key && '\r' !in key
    case DockerInput(_, key, EnvFile) => ValidName(key)
    case DockerInput(_, key, ComposeEnvironment) =>
      SplitOnce(key, ':').Some? && SafeLabel(SplitOnce(key, ':').value.0) && ValidName(SplitOnce(key, ':').value.1)
    case _ => true
  }

  predicate ValidName(name: string) { name != "" && forall c | c in name :: AsciiAlnum(c) || c == '_' }

  /** Excludes the one key whose written line may be read as another text. */
  predicate Legible(spec: TargetSpec) {
    spec.StructuredField? && spec.format.Properties? ==> spec.key != "export"
  }

  // ---- reading and writing ----

  /** UTF-8, JSON and YAML, as far as the program uses them. */
  datatype Codecs = Codecs(
    decode: Bytes -> Option<string>, encode: string -> Bytes,
    parseJson: string -> Option<J.Json>, renderJson: J.Json -> string,
    parseYaml: string -> Option<J.Json>, editYaml: (string, seq<string>, string) -> string)

  /** A path through mappings only, which is how YAML pointers are followed. */
  predicate MappingsTo(doc: J.Json, path: seq<string>) {
    path == [] || (doc.Object? && path[0] in doc.fields && MappingsTo(doc.fields[path[0]], path[1..]))
  }

  /** What is written decodes to the same, and a YAML edit replaces the one value it names. */
  ghost predicate Lawful(c: Codecs) {
    && (forall s :: c.decode(c.encode(s)) == Some(s)) && c.decode([]) == Some("")
    && J.Codec(c.parseJson, c.renderJson)
    && (forall text, path, value ::
          path != [] && c.parseYaml(text).Some? && MappingsTo(c.parseYaml(text).value, path) ==>
            c.parseYaml(c.editYaml(text, path, value)) == J.Put(c.parseYaml(text).value, path, J.String(value)))
  }

  /** The text of a YAML value: in compose files dollar signs are doubled. */
  function YamlText(spec: TargetSpec, text: string): string {
    if spec.DockerInput? then K.ReplaceChar(text, '$', "$$") else text
  }

  function RenderYaml(c: Codecs, spec: TargetSpec, path: seq<string>, source: string, text: string): Option<string> {
    var doc := c.parseYaml(source);
    if K.Forbidden(YamlText(spec, text)) || doc.None? || !MappingsTo(doc.value, path) then None
    else Some(c.editYaml(source, path, YamlText(spec, text)))
  }

  /** The new text of a file of which one place is set. */
  function RenderText(c: Codecs, spec: TargetSpec, source: string, text: string, kind: SecretType): Option<string> {
    match PlaceOf(spec)
    case Line(style, key) => (match K.Upsert(source, key, text, style) case Ok(out) => Some(out) case Err(_) => None)
    case Node(JsonTree, _) =>
      if !spec.StructuredField? then None else
      (match J.RenderJson(c.parseJson, c.renderJson, Some(source), spec.key, Some(text), kind)
       case Ok(out) => Some(out)
       case Err(_) => None)
    case Node(YamlTree, path) => RenderYaml(c, spec, path, source, text)
    case _ => None
  }

  /** `store_git_credential` refuses what its line protocol cannot carry. */
  predicate GitAccepts(bytes: Bytes) { bytes != [] && forall b | b in bytes :: b != 10 && b != 13 && b != 0 }

  /** What an apply makes of an object's content; nothing if it fails. A missing file counts as an empty one. */
  function Render(c: Codecs, spec: TargetSpec, prior: Option<Content>, payload: Payload): Option<Content> {
    if spec.WholeFile? then Some(FileOf(payload.bytes))
    else if PlaceOf(spec).Slot? then
      if (prior.Some? && !prior.value.Store?) || (spec.GitCredential? && !GitAccepts(payload.bytes)) then None
      else Some(Store((if prior.Some? then prior.value.slots else map[])[PlaceOf(spec).name := payload]))
    else if prior.Some? && !prior.value.FileOf? then None
    else
      match (c.decode(if prior.Some? then prior.value.bytes else []), c.decode(payload.bytes))
      case (Some(source), Some(text)) =>
        (match RenderText(c, spec, source, text, payload.kind) case Some(out) => Some(FileOf(c.encode(out))) case None => None)
      case _ => None
  }

  /** Reading a line back: one line sets the key, and to this value. */
  ghost predicate LineHolds(source: string, style: K.Style, key: string, text: string) {
    exists at: nat :: K.OnlyAt(K.Lines(source), at, key, style) && K.ValueAt(K.Lines(source), at, style) == Some(text)
  }

  /** A compose value is what interpolation makes of it. */
  predicate YamlHolds(doc: Option<J.Json>, spec: TargetSpec, path: seq<string>, text: string) {
    doc.Some? &&
    match J.Get(doc.value, path)
    case Some(String(value)) => if spec.DockerInput? then K.Interpolated(value) == Some(text) else value == text
    case _ => false
  }

  /** The place holds this payload. */
  ghost predicate Holds(c: Codecs, spec: TargetSpec, content: Content, payload: Payload) {
    match PlaceOf(spec)
    case Whole => content == FileOf(payload.bytes)
    case Slot(name) => content.Store? && name in content.slots && content.slots[name] == payload
    case Nowhere => false
    case place =>
      && content.FileOf? && c.decode(content.bytes).Some? && c.decode(payload.bytes).Some?
      && TextHolds(c, spec, place, c.decode(content.bytes).value, c.decode(payload.bytes).value, payload.kind)
  }

  ghost predicate TextHolds(c: Codecs, spec: TargetSpec, place: Place, source: string, text: string, kind: SecretType)
    requires place.Line? || place.Node?
  {
    match place
    case Line(style, key) => LineHolds(source, style, key, text)
    case Node(JsonTree, path) =>
      && c.parseJson(source).Some? && J.Get(c.parseJson(source).value, path).Some?
      && J.Denotes(c.parseJson, text, kind, J.Get(c.parseJson(source).value, path).value)
    case Node(YamlTree, path) => YamlHolds(c.parseYaml(source), spec, path, text)
  }

  // ---- an apply writes its place and no other ----

  lemma LineKeyIsValid(spec: TargetSpec)
    requires AcceptedKey(spec) && PlaceOf(spec).Line?
    ensures K.ValidKey(PlaceOf(spec).key) && (Legible(spec) && PlaceOf(spec).style.Properties? ==> PlaceOf(spec).key != "export")
  {
  }

  lemma LineWritten(source: string, style: K.Style, key: string, text: string)
    requires K.ValidKey(key) && K.Upsert(source, key, text, style).Ok? && (style.Properties? ==> key != "export")
    ensures LineHolds(K.Upsert(source, key, text, style).value, style, key, text)
  {
    var at := K.WritesOneLine(source, key, text, style);
    forall i | 0 <= i < |K.Lines(source)| && style.Properties? && K.Sets(K.Lines(source)[i], key, style)
      ensures !K.Exported(K.Lines(source)[i])
    {
      if K.Exported(K.Lines(source)[i]) {
        K.ExportedPropertiesKey(K.Lines(source)[i], key);
      }
    }
  }

  lemma LineKept(source: string, style: K.Style, key: string, text: string, other: string, held: string)
    requires K.ValidKey(key) && K.Upsert(source, key, text, style).Ok? && other != key
    requires LineHolds(source, style, other, held)
    ensures LineHolds(K.Upsert(source, key, text, style).value, style, other, held)
  {
    var was, now := K.Lines(source), K.Lines(K.Upsert(source, key, text, style).value);
    var at: nat :| K.OnlyAt(was, at, other, style) && K.ValueAt(was, at, style) == Some(held);
    var written := K.WritesOneLine(source, key, text, style);
    assert |was| <= |now| by {
      K.ClosedSets(was, K.Newline(source), style);
    }
    forall i | 0 <= i < |now|
      ensures K.Sets(now[i], other, style) <==> i == at
      ensures i == at ==> K.Setting(now[i], style) == K.Setting(was[i], style)
    {
      K.OtherKeysRead(source, key, text, style, other, i);
    }
    assert K.OnlyAt(now, at, other, style);
  }

  lemma JsonWritten(c: Codecs, source: string, key: string, path: seq<string>, text: string, kind: SecretType)
    requires Lawful(c) && J.Path(key) == Some(path)
    requires J.RenderJson(c.parseJson, c.renderJson, Some(source), key, Some(text), kind).Ok?
    ensures var now := c.parseJson(J.RenderJson(c.parseJson, c.renderJson, Some(source), key, Some(text), kind).value);
            now.Some? && J.Get(now.value, path).Some? && J.Denotes(c.parseJson, text, kind, J.Get(now.value, path).value)
  {
    J.WriteIsFramed(c.parseJson, c.renderJson, source, key, text, kind, key);
  }

  lemma JsonKept(c: Codecs, source: string, key: string, text: string, kind: SecretType, path: seq<string>, other: seq<string>)
    requires Lawful(c) && J.Path(key) == Some(path) && c.parseJson(source).Some? && !J.Comparable(path, other)
    requires J.RenderJson(c.parseJson, c.renderJson, Some(source), key, Some(text), kind).Ok?
    requires J.Get(c.parseJson(source).value, other).Some? && source != ""
    ensures var now := c.parseJson(J.RenderJson(c.parseJson, c.renderJson, Some(source), key, Some(text), kind).value);
            now.Some? && J.Get(now.value, other) == J.Get(c.parseJson(source).value, other)
  {
    J.PathOfPointer(other);
    J.WriteIsFramed(c.parseJson, c.renderJson, source, key, text, kind, J.Pointer(other));
  }

  lemma {:induction false} MappingsReach(doc: J.Json, path: seq<string>)
    requires MappingsTo(doc, path)
    ensures J.Get(doc, path).Some?
  {
    if path != [] {
      MappingsReach(doc.fields[path[0]], path[1..]);
    }
  }

  lemma YamlWritten(c: Codecs, spec: TargetSpec, path: seq<string>, source: string, text: string)
    requires Lawful(c) && path != [] && RenderYaml(c, spec, path, source, text).Some?
    ensures YamlHolds(c.parseYaml(RenderYaml(c, spec, path, source, text).value), spec, path, text)
  {
    var doc, value := c.parseYaml(source).value, YamlText(spec, text);
    MappingsReach(doc, path);
    J.ReadsBack(doc, path, J.String(value), []);
    assert path + [] == path;
    K.DollarsSurvive(text);
    assert c.parseYaml(c.editYaml(source, path, value)) == J.Put(doc, path, J.String(value));
  }

  lemma YamlKept(c: Codecs, a: TargetSpec, path: seq<string>, source: string, text: string,
                 b: TargetSpec, other: seq<string>, held: string)
    requires Lawful(c) && path != [] && RenderYaml(c, a, path, source, text).Some? && !J.Comparable(path, other)
    requires YamlHolds(c.parseYaml(source), b, other, held)
    ensures YamlHolds(c.parseYaml(RenderYaml(c, a, path, source, text).value), b, other, held)
  {
    var doc, value := c.parseYaml(source).value, YamlText(a, text);
    MappingsReach(doc, path);
    J.OthersUntouched(doc, path, J.String(value), other);
    assert c.parseYaml(c.editYaml(source, path, value)) == J.Put(doc, path, J.String(value));
  }

  lemma TextWritten(c: Codecs, spec: TargetSpec, source: string, text: string, kind: SecretType)
    requires Lawful(c) && AcceptedKey(spec) && Legible(spec) && RenderText(c, spec, source, text, kind).Some?
    ensures PlaceOf(spec).Line? || PlaceOf(spec).Node?
    ensures TextHolds(c, spec, PlaceOf(spec), RenderText(c, spec, source, text, kind).value, text, kind)
  {
    match PlaceOf(spec)
    case Line(style, key) =>
      LineKeyIsValid(spec);
      LineWritten(source, style, key, text);
    case Node(JsonTree, path) => JsonWritten(c, source, spec.key, path, text, kind);
    case Node(YamlTree, path) => YamlWritten(c, spec, path, source, text);
    case _ =>
  }

  lemma TextKept(c: Codecs, a: TargetSpec, source: string, text: string, kind: SecretType,
                 b: TargetSpec, held: string, sort: SecretType)
    requires Lawful(c) && AcceptedKey(a) && RenderText(c, a, source, text, kind).Some? && Disjoint(PlaceOf(a), PlaceOf(b))
    requires PlaceOf(b).Line? || PlaceOf(b).Node?
    requires TextHolds(c, b, PlaceOf(b), source, held, sort)
    ensures TextHolds(c, b, PlaceOf(b), RenderText(c, a, source, text, kind).value, held, sort)
  {
    match PlaceOf(a)
    case Line(style, key) =>
      LineKeyIsValid(a);
      LineKept(source, style, key, text, PlaceOf(b).key, held);
    case Node(JsonTree, path) => JsonKept(c, source, a.key, text, kind, path, PlaceOf(b).path);
    case Node(YamlTree, path) => YamlKept(c, a, path, source, text, b, PlaceOf(b).path, held);
    case _ =>
  }

  /** An apply that succeeds leaves its payload in its place. */
  lemma RenderHolds(c: Codecs, spec: TargetSpec, prior: Option<Content>, payload: Payload)
    requires Lawful(c) && AcceptedKey(spec) && Legible(spec) && Render(c, spec, prior, payload).Some?
    ensures Holds(c, spec, Render(c, spec, prior, payload).value, payload)
  {
    if !spec.WholeFile? && !PlaceOf(spec).Slot? {
      var source := c.decode(if prior.Some? then prior.value.bytes else []).value;
      TextWritten(c, spec, source, c.decode(payload.bytes).value, payload.kind);
    }
  }

  /** A git credential that the line protocol could not carry is refused, and no other. */
  lemma GitCredentialsAreOneLine(c: Codecs, spec: TargetSpec, prior: Option<Content>, payload: Payload)
    requires spec.GitCredential? && (prior.Some? ==> prior.value.Store?)
    ensures Render(c, spec, prior, payload).Some? <==>
              payload.bytes != [] && (10 as byte) !in payload.bytes && (13 as byte) !in payload.bytes && (0 as byte) !in payload.bytes
  {
  }

  /** And it leaves every disjoint place of the object as it was. */
  lemma RenderKeeps(c: Codecs, a: TargetSpec, prior: Content, payload: Payload, b: TargetSpec, held: Payload)
    requires Lawful(c) && AcceptedKey(a) && Disjoint(PlaceOf(a), PlaceOf(b))
    requires Render(c, a, Some(prior), payload).Some? && Holds(c, b, prior, held)
    ensures Holds(c, b, Render(c, a, Some(prior), payload).value, held)
  {
    if PlaceOf(b).Line? || PlaceOf(b).Node? {
      TextKept(c, a, c.decode(prior.bytes).value, c.decode(payload.bytes).value, payload.kind,
               b, c.decode(held.bytes).value, held.kind);
    }
  }

  /**
   * Reading and writing as an engine meets them: two functions, of which its steps only need what `MediumWrites` and
   * `MediumKeeps` say. A sound medium is the reading and writing defined above.
   */
  datatype Medium = Medium(
    codecs: Codecs,
    render: (TargetSpec, Option<Content>, Payload) -> Option<Content>,
    holds: (TargetSpec, Content, Payload) -> bool)

  ghost predicate Sound(m: Medium) {
    && Lawful(m.codecs)
    && (forall spec, prior, payload :: m.render(spec, prior, payload) == Render(m.codecs, spec, prior, payload))
    && (forall spec, content, payload :: m.holds(spec, content, payload) <==> Holds(m.codecs, spec, content, payload))
  }

  ghost function MediumOf(c: Codecs): (m: Medium)
    ensures Lawful(c) ==> Sound(m)
  {
    Medium(c, (spec, prior, payload) => Render(c, spec, prior, payload), (spec, content, payload) => Holds(c, spec, content, payload))
  }

  lemma MediumWrites(m: Medium, spec: TargetSpec, prior: Option<Content>, payload: Payload)
    requires Sound(m) && AcceptedKey(spec) && Legible(spec) && m.render(spec, prior, payload).Some?
    ensures m.holds(spec, m.render(spec, prior, payload).value, payload)
  {
    RenderHolds(m.codecs, spec, prior, payload);
  }

  lemma MediumKeeps(m: Medium, a: TargetSpec, prior: Content, payload: Payload, b: TargetSpec, held: Payload)
    requires Sound(m) && AcceptedKey(a) && Disjoint(PlaceOf(a), PlaceOf(b))
    requires m.render(a, Some(prior), payload).Some? && m.holds(b, prior, held)
    ensures m.holds(b, m.render(a, Some(prior), payload).value, held)
  {
    RenderKeeps(m.codecs, a, prior, payload, b, held);
  }

  // ---- why the conditions are needed ----

  /** A text written above another path of the same document leaves nothing at that path. */
  lemma TextAboveDestroys(doc: J.Json, path: seq<string>, text: string, below: seq<string>)
    requires J.Get(doc, path).Some? && below != []
    ensures J.Get(J.Put(doc, path, J.String(text)).value, path + below) == None
  {
    J.ReadsBack(doc, path, J.String(text), below);
  }

  lemma {:induction false} SplitAt(a: string, c: char, b: string)
    requires c !in a
    ensures SplitOnce(a + [c] + b, c) == Some((a, b))
  {
    if a == "" {
      assert (a + [c] + b)[1..] == b;
    } else {
      assert a[0] in a && forall d | d in a[1..] :: d in a;
      SplitAt(a[1..], c, b);
      assert (a + [c] + b)[1..] == a[1..] + [c] + b && [a[0]] + a[1..] == a;
    }
  }

  /** Keys that look different can name one place: YAML pointers with more slashes, and a compose key beside its pointer. */
  lemma KeysThatCoincide(path: string, key: string, service: string, variable: string)
    requires SafeLabel(service)
    ensures PlaceOf(StructuredField(path, "/" + key, Yaml)) == PlaceOf(StructuredField(path, key, Yaml))
    ensures PlaceOf(DockerInput(path, service + ":" + variable, ComposeEnvironment)) ==
            PlaceOf(StructuredField(path, "/services/" + service + "/environment/" + variable, Yaml))
  {
    SplitAt(service, ':', variable);
  }

  lemma MisreadLine(source: string, text: string)
    requires K.Upsert(source, "export", text, K.Properties).Ok? && K.ExportCase(source, "export", K.Properties)
    ensures !LineHolds(K.Upsert(source, "export", text, K.Properties).value, K.Properties, "export", text)
  {
    var at := K.WritesOneLine(source, "export", text, K.Properties);
    var now := K.Lines(K.Upsert(source, "export", text, K.Properties).value);
    forall i: nat | K.OnlyAt(now, i, "export", K.Properties) ensures i == at {
      assert K.Sets(now[at], "export", K.Properties);
    }
  }

  lemma LineRendered(c: Codecs, path: string, key: string, source: string, text: string, kind: SecretType)
    requires Lawful(c) && K.Upsert(source, key, text, K.Properties).Ok?
    ensures Render(c, StructuredField(path, key, Properties), Some(FileOf(c.encode(source))), Payload(c.encode(text), kind)) ==
            Some(FileOf(c.encode(K.Upsert(source, key, text, K.Properties).value)))
  {
  }

  lemma LineIsHeld(c: Codecs, path: string, key: string, source: string, text: string, kind: SecretType)
    requires Lawful(c)
    ensures Holds(c, StructuredField(path, key, Properties), FileOf(c.encode(source)), Payload(c.encode(text), kind)) <==>
            LineHolds(source, K.Properties, key, text)
  {
  }

  lemma ExportIsAccepted(path: string)
    ensures AcceptedKey(StructuredField(path, "export", Properties)) && !Legible(StructuredField(path, "export", Properties))
  {
  }

  /** The properties key `export` can be written and not be read back. */
  lemma IllegibleMisreads(c: Codecs, path: string, source: string, text: string, kind: SecretType)
    requires Lawful(c) && K.ExportCase(source, "export", K.Properties)
    requires K.Upsert(source, "export", text, K.Properties).Ok?
    ensures var spec := StructuredField(path, "export", Properties);
            var file, payload := FileOf(c.encode(source)), Payload(c.encode(text), kind);
            && AcceptedKey(spec) && !Legible(spec) && Render(c, spec, Some(file), payload).Some?
            && !Holds(c, spec, Render(c, spec, Some(file), payload).value, payload)
  {
    ExportIsAccepted(path);
    MisreadLine(source, text);
    LineRendered(c, path, "export", source, text, kind);
    LineIsHeld(c, path, "export", K.Upsert(source, "export", text, K.Properties).value, text, kind);
  }
}
