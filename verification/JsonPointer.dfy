/**
 * Replacing one value of a JSON document at a pointer (RFC 6901). The document is a tree; reading and writing JSON
 * text are idealised as an injective encoding with an inverse.
 */
module JsonPointer {
  import opened Basics
  import opened Decimal

  datatype Json =
    | Null
    | Bool(b: bool)
    | Number(text: string)
    | String(value: string)
    | Array(items: seq<Json>)
    | Object(fields: map<string, Json>)

  // ---- tokens ----

  /** `str::replace` of a two-character pattern by one character. */
  function ReplacePair(s: string, a: char, b: char, c: char): string {
    if s == "" then ""
    else if |s| >= 2 && s[0] == a && s[1] == b then [c] + ReplacePair(s[2..], a, b, c)
    else [s[0]] + ReplacePair(s[1..], a, b, c)
  }

  /** `unescape_pointer`: two passes, `~1` first. */
  function Unescape(token: string): string { ReplacePair(ReplacePair(token, '~', '1', '/'), '~', '0', '~') }

  /** The decoder of section 4 of RFC 6901 in one pass; a tilde that escapes nothing is kept. */
  function Decode(token: string): string {
    if token == "" then ""
    else if |token| >= 2 && token[0] == '~' && token[1] == '1' then "/" + Decode(token[2..])
    else if |token| >= 2 && token[0] == '~' && token[1] == '0' then "~" + Decode(token[2..])
    else [token[0]] + Decode(token[1..])
  }

  function Escape(s: string): string {
    if s == "" then ""
    else (if s[0] == '~' then "~0" else if s[0] == '/' then "~1" else [s[0]]) + Escape(s[1..])
  }

  /** A reference token of section 3 of RFC 6901: no slash, and every tilde begins an escape. */
  predicate ValidToken(token: string) {
    token == "" ||
    (if token[0] == '~' then |token| >= 2 && (token[1] == '0' || token[1] == '1') && ValidToken(token[2..])
     else token[0] != '/' && ValidToken(token[1..]))
  }

  /** The first character of a first pass is a zero only where the token's was. */
  lemma FirstPassHead(s: string)
    ensures var p := ReplacePair(s, '~', '1', '/'); (p == "" <==> s == "") && (s != "" ==> p[0] == s[0] || (s[0] == '~' && p[0] == '/'))
  {
  }

  /** On every token, valid or not, the two passes decode as one. */
  lemma {:induction false} TwoPassesAreOne(token: string)
    ensures Unescape(token) == Decode(token)
  {
    var first := ReplacePair(token, '~', '1', '/');
    if token == "" {
    } else if |token| >= 2 && token[0] == '~' && token[1] == '1' {
      TwoPassesAreOne(token[2..]);
      assert first[1..] == ReplacePair(token[2..], '~', '1', '/');
    } else if |token| >= 2 && token[0] == '~' && token[1] == '0' {
      TwoPassesAreOne(token[2..]);
      assert token[1..][1..] == token[2..];
      assert ReplacePair(token[1..], '~', '1', '/') == "0" + ReplacePair(token[2..], '~', '1', '/');
      assert first == "~" + ("0" + ReplacePair(token[2..], '~', '1', '/'));
      assert first[0] == '~' && first[1] == '0' && first[2..] == ReplacePair(token[2..], '~', '1', '/');
    } else {
      TwoPassesAreOne(token[1..]);
      FirstPassHead(token[1..]);
      assert first[0] == token[0] && first[1..] == ReplacePair(token[1..], '~', '1', '/');
    }
  }

  lemma {:induction false} UnescapeEscape(s: string)
    ensures Unescape(Escape(s)) == s && ValidToken(Escape(s)) && '/' !in Escape(s)
  {
    TwoPassesAreOne(Escape(s));
    if s != "" {
      UnescapeEscape(s[1..]);
      TwoPassesAreOne(Escape(s[1..]));
      var e := Escape(s);
      if s[0] == '~' || s[0] == '/' {
        assert e[2..] == Escape(s[1..]);
      } else {
        assert e[1..] == Escape(s[1..]);
      }
      assert [s[0]] + s[1..] == s;
    }
  }

  /** So escape and unescape are inverse to each other between texts and valid tokens. */
  lemma {:induction false} EscapeUnescape(token: string)
    requires ValidToken(token)
    ensures Escape(Unescape(token)) == token
  {
    TwoPassesAreOne(token);
    if token != "" {
      var rest := if token[0] == '~' then token[2..] else token[1..];
      EscapeUnescape(rest);
      TwoPassesAreOne(rest);
      assert Unescape(token)[1..] == Unescape(rest);
      if token[0] == '~' {
        assert ['~', token[1]] + token[2..] == token;
      } else {
        assert [token[0]] + token[1..] == token;
      }
    }
  }

  /** With the passes in the other order `~01` would name the wrong field. */
  lemma PassOrderMatters()
    ensures ReplacePair(ReplacePair("~01", '~', '0', '~'), '~', '1', '/') == "/" && Unescape("~01") == "~1"
  {
    TwoPassesAreOne("~01");
    assert "~01"[2..] == "1" && "~01"[1..] == "01" && "1"[1..] == "";
    assert ReplacePair("1", '~', '0', '~') == "1" && Decode("1") == "1";
    assert ReplacePair("~01", '~', '0', '~') == "~1" && "~1"[2..] == "";
  }

  // ---- pointers ----

  function Split(s: string): (r: seq<string>)
    ensures |r| > 0
  {
    if s == "" then [""]
    else
      var rest := Split(s[1..]);
      if s[0] == '/' then [""] + rest else [[s[0]] + rest[0]] + rest[1..]
  }

  function UnescapeAll(tokens: seq<string>): (r: seq<string>)
    ensures |r| == |tokens| && forall i | 0 <= i < |tokens| :: r[i] == Unescape(tokens[i])
  {
    seq(|tokens|, i requires 0 <= i < |tokens| => Unescape(tokens[i]))
  }

  /** The path a pointer denotes; only the empty pointer and those that begin with a slash denote one. */
  function Path(pointer: string): Option<seq<string>> {
    if pointer == "" then Some([])
    else if pointer[0] != '/' then None
    else Some(UnescapeAll(Split(pointer[1..])))
  }

  function Pointer(path: seq<string>): string {
    if path == [] then "" else "/" + Escape(path[0]) + Pointer(path[1..])
  }

  lemma {:induction false} SplitToken(token: string, rest: string)
    requires '/' !in token && (rest == "" || rest[0] == '/')
    ensures Split(token + rest) == if rest == "" then [token] else [token] + Split(rest[1..])
  {
    if token == "" {
      assert token + rest == rest;
    } else {
      assert token[0] in token && forall c | c in token[1..] :: c in token;
      SplitToken(token[1..], rest);
      assert (token + rest)[1..] == token[1..] + rest;
      assert [token[0]] + token[1..] == token;
    }
  }

  lemma UnescapeCons(token: string, tokens: seq<string>)
    ensures UnescapeAll([token] + tokens) == [Unescape(token)] + UnescapeAll(tokens)
  {
  }

  /** Every path has a pointer that denotes it. */
  lemma {:induction false} PathOfPointer(path: seq<string>)
    ensures Path(Pointer(path)) == Some(path)
  {
    if path != [] {
      PathOfPointer(path[1..]);
      PathStep(path[0], Pointer(path[1..]));
      assert [path[0]] + path[1..] == path;
    }
  }

  lemma PathStep(name: string, rest: string)
    requires rest == "" || rest[0] == '/'
    ensures Path("/" + Escape(name) + rest) == Some([name] + Path(rest).value)
  {
    var token, tail := Escape(name), if rest == "" then [] else Split(rest[1..]);
    UnescapeEscape(name);
    SplitToken(token, rest);
    assert Split(token + rest) == [token] + tail;
    UnescapeCons(token, tail);
    PathSplits(token + rest);
    assert "/" + (token + rest) == "/" + token + rest;
    if rest == "" {
      assert UnescapeAll(tail) == [] == Path(rest).value;
    } else {
      assert UnescapeAll(tail) == Path(rest).value;
    }
  }

  lemma PathSplits(s: string)
    ensures Path("/" + s) == Some(UnescapeAll(Split(s)))
  {
    assert ("/" + s)[1..] == s;
  }

  // ---- values ----

  /** An array index: digits without a leading zero, and no sign. */
  function Index(token: string, length: nat): Option<nat> {
    if Canonical(token) && Decimal.Number(token) < length then Some(Decimal.Number(token)) else None
  }

  lemma IndexInjective(a: string, b: string, length: nat)
    requires Index(a, length).Some? && Index(a, length) == Index(b, length)
    ensures a == b
  {
    DigitsOfNumber(a);
    DigitsOfNumber(b);
  }

  function Child(v: Json, token: string): Option<Json> {
    match v
    case Object(fields) => if token in fields then Some(fields[token]) else None
    case Array(items) => (match Index(token, |items|) case Some(i) => Some(items[i]) case None => None)
    case _ => None
  }

  function WithChild(v: Json, token: string, x: Json): Json
    requires Child(v, token).Some?
  {
    match v
    case Object(fields) => Object(fields[token := x])
    case Array(items) => Array(items[Index(token, |items|).value := x])
  }

  /** The value `pointer` finds. */
  function Get(v: Json, path: seq<string>): Option<Json> {
    if path == [] then Some(v)
    else match Child(v, path[0]) case Some(c) => Get(c, path[1..]) case None => None
  }

  /** The document after an assignment through `pointer_mut`. */
  function Put(v: Json, path: seq<string>, x: Json): (r: Option<Json>)
    ensures r.Some? <==> Get(v, path).Some?
  {
    if path == [] then Some(x)
    else match Child(v, path[0])
      case None => None
      case Some(c) => (match Put(c, path[1..], x) case Some(d) => Some(WithChild(v, path[0], d)) case None => None)
  }

  lemma ChildAfter(v: Json, token: string, x: Json, other: string)
    requires Child(v, token).Some?
    ensures Child(WithChild(v, token, x), other) == if other == token then Some(x) else Child(v, other)
  {
    if v.Array? && other != token && Index(other, |v.items|) == Index(token, |v.items|) {
      IndexInjective(token, other, |v.items|);
    }
  }

  predicate Comparable(p: seq<string>, q: seq<string>) { p <= q || q <= p }

  lemma ComparableTails(p: seq<string>, q: seq<string>)
    requires p != [] && q != [] && p[0] == q[0]
    ensures Comparable(p, q) <==> Comparable(p[1..], q[1..])
  {
    if p[1..] <= q[1..] {
      assert q[..|p|] == [q[0]] + q[1..][..|p| - 1];
    }
    if q[1..] <= p[1..] {
      assert p[..|q|] == [p[0]] + p[1..][..|q| - 1];
    }
  }

  /** A replacement reads back, at its path and below. */
  lemma {:induction false} ReadsBack(v: Json, path: seq<string>, x: Json, below: seq<string>)
    requires Get(v, path).Some?
    ensures Get(Put(v, path, x).value, path + below) == Get(x, below)
  {
    if path == [] {
      assert path + below == below;
    } else {
      var c := Child(v, path[0]).value;
      ReadsBack(c, path[1..], x, below);
      ChildAfter(v, path[0], Put(c, path[1..], x).value, path[0]);
      assert (path + below)[1..] == path[1..] + below;
    }
  }

  /** Above its path the new document holds the old value with the same replacement made in it. */
  lemma {:induction false} ReadAbove(v: Json, above: seq<string>, path: seq<string>, x: Json)
    requires Get(v, above + path).Some?
    ensures Get(v, above).Some? && Get(Put(v, above + path, x).value, above) == Put(Get(v, above).value, path, x)
  {
    if above == [] {
      assert above + path == path;
    } else {
      var c := Child(v, above[0]).value;
      assert (above + path)[1..] == above[1..] + path;
      ReadAbove(c, above[1..], path, x);
      ChildAfter(v, above[0], Put(c, above[1..] + path, x).value, above[0]);
    }
  }

  /** Every path that is neither above nor below reads as before. */
  lemma {:induction false} OthersUntouched(v: Json, path: seq<string>, x: Json, other: seq<string>)
    requires Get(v, path).Some? && !Comparable(path, other)
    ensures Get(Put(v, path, x).value, other) == Get(v, other)
  {
    var c := Child(v, path[0]).value;
    var d := Put(c, path[1..], x).value;
    ChildAfter(v, path[0], d, other[0]);
    if path[0] == other[0] {
      ComparableTails(path, other);
      OthersUntouched(c, path[1..], x, other[1..]);
    }
  }

  lemma WithChildTwice(v: Json, token: string, x: Json, other: string, y: Json)
    requires Child(v, token).Some? && Child(v, other).Some?
    ensures Child(WithChild(v, token, x), other).Some? && Child(WithChild(v, other, y), token).Some?
    ensures token == other ==> WithChild(WithChild(v, token, x), token, y) == WithChild(v, token, y)
    ensures token != other ==> WithChild(WithChild(v, token, x), other, y) == WithChild(WithChild(v, other, y), token, x)
  {
    ChildAfter(v, token, x, other);
    ChildAfter(v, other, y, token);
    match v
    case Object(fields) =>
      if token != other {
        assert fields[token := x][other := y] == fields[other := y][token := x];
      } else {
        assert fields[token := x][token := y] == fields[token := y];
      }
    case Array(items) =>
      var i, j := Index(token, |items|).value, Index(other, |items|).value;
      if token != other {
        if i == j {
          IndexInjective(token, other, |items|);
        }
        assert items[i := x][j := y] == items[j := y][i := x];
      } else {
        assert items[i := x][i := y] == items[i := y];
      }
  }

  /** Replacements at incomparable paths commute. */
  lemma {:induction false} ReplacementsCommute(v: Json, path: seq<string>, x: Json, other: seq<string>, y: Json)
    requires Get(v, path).Some? && Get(v, other).Some? && !Comparable(path, other)
    ensures Get(Put(v, path, x).value, other).Some? && Get(Put(v, other, y).value, path).Some?
    ensures Put(Put(v, path, x).value, other, y) == Put(Put(v, other, y).value, path, x)
  {
    OthersUntouched(v, path, x, other);
    OthersUntouched(v, other, y, path);
    var a, b := path[0], other[0];
    var c, d := Child(v, a).value, Child(v, b).value;
    var c', d' := Put(c, path[1..], x).value, Put(d, other[1..], y).value;
    ChildAfter(v, a, c', b);
    ChildAfter(v, b, d', a);
    if a == b {
      ComparableTails(path, other);
      ReplacementsCommute(c, path[1..], x, other[1..], y);
      WithChildTwice(v, a, c', a, Put(c', other[1..], y).value);
      WithChildTwice(v, a, d', a, Put(d', path[1..], x).value);
    } else {
      WithChildTwice(v, a, c', b, d');
    }
  }

  /** A second replacement at the same path wins. */
  lemma {:induction false} SecondReplacementWins(v: Json, path: seq<string>, x: Json, y: Json)
    requires Get(v, path).Some?
    ensures Get(Put(v, path, x).value, path).Some? && Put(Put(v, path, x).value, path, y) == Put(v, path, y)
  {
    ReadsBack(v, path, x, []);
    assert path + [] == path;
    if path != [] {
      var c := Child(v, path[0]).value;
      SecondReplacementWins(c, path[1..], x, y);
      var d := Put(c, path[1..], x).value;
      ChildAfter(v, path[0], d, path[0]);
      WithChildTwice(v, path[0], d, path[0], Put(c, path[1..], y).value);
    }
  }

  // ---- the file ----

  /** JSON text, idealised: what is written parses back, and is never empty. */
  ghost predicate Codec(parse: string -> Option<Json>, render: Json -> string) {
    forall v :: parse(render(v)) == Some(v) && render(v) != ""
  }

  /** An empty file counts as an object without fields. */
  function Document(parse: string -> Option<Json>, prior: string): Option<Json> {
    if prior == "" then Some(Object(map[])) else parse(prior)
  }

  function Replacement(parse: string -> Option<Json>, text: string, kind: SecretType): Option<Json> {
    if kind.Json? then parse(text) else Some(String(text))
  }

  /** The JSON arm of `render_structured`; bytes that are not UTF-8 are `None` here. */
  function RenderJson(parse: string -> Option<Json>, render: Json -> string,
                      prior: Option<string>, key: string, payload: Option<string>, kind: SecretType): Result<string, TargetError>
  {
    if prior.None? then Err(TargetFailed) else
    match Document(parse, prior.value)
    case None => Err(TargetFailed)
    case Some(value) =>
      if payload.None? then Err(TargetFailed) else
      match Replacement(parse, payload.value, kind)
      case None => Err(TargetFailed)
      case Some(replacement) =>
        match Path(key)
        case None => Err(TargetFailed)
        case Some(path) =>
          match Put(value, path, replacement)
          case None => Err(TargetFailed)
          case Some(updated) => Ok(render(updated))
  }

  /** A write succeeds exactly for a document that has the field, and for a JSON secret that is JSON itself. */
  lemma RendersExactly(parse: string -> Option<Json>, render: Json -> string,
                       prior: Option<string>, key: string, payload: Option<string>, kind: SecretType)
    ensures RenderJson(parse, render, prior, key, payload, kind).Ok? <==>
              && prior.Some? && payload.Some? && (kind.Json? ==> parse(payload.value).Some?)
              && if prior.value == "" then key == ""
                 else Path(key).Some? && parse(prior.value).Some? && Get(parse(prior.value).value, Path(key).value).Some?
  {
    if prior == Some("") && key != "" {
      EmptyFileRefuses(parse, render, key, payload, kind);
    }
  }

  /** The value that a secret stands for: a JSON secret is the document it spells, any other its own text. */
  predicate Denotes(parse: string -> Option<Json>, text: string, kind: SecretType, v: Json) {
    if kind.Json? then parse(text) == Some(v) else v == String(text)
  }

  /**
   * A successful write holds the value of the secret at the key, and at every pointer whose path is neither above nor below
   * the key's it holds what the file held.
   */
  lemma WriteIsFramed(parse: string -> Option<Json>, render: Json -> string,
                      prior: string, key: string, payload: string, kind: SecretType, other: string)
    requires Codec(parse, render)
    requires RenderJson(parse, render, Some(prior), key, Some(payload), kind).Ok?
    ensures var now := parse(RenderJson(parse, render, Some(prior), key, Some(payload), kind).value);
            && now.Some? && Path(key).Some?
            && Get(now.value, Path(key).value).Some? && Denotes(parse, payload, kind, Get(now.value, Path(key).value).value)
            && (Path(other).Some? && !Comparable(Path(key).value, Path(other).value) ==>
                  Get(now.value, Path(other).value) == Get(Document(parse, prior).value, Path(other).value))
  {
    var was, path, x := Document(parse, prior).value, Path(key).value, Replacement(parse, payload, kind).value;
    ReadsBack(was, path, x, []);
    assert path + [] == path;
    if Path(other).Some? && !Comparable(path, Path(other).value) {
      OthersUntouched(was, path, x, Path(other).value);
    }
  }

  /** So a JSON secret arrives as the value it was made from, and any other secret as a string. */
  lemma ValuesArrive(parse: string -> Option<Json>, render: Json -> string,
                     prior: string, key: string, v: Json, text: string, kind: SecretType)
    requires Codec(parse, render) && Path(key).Some?
    ensures var written := RenderJson(parse, render, Some(prior), key, Some(render(v)), SecretType.Json);
            written.Ok? ==> parse(written.value).Some? && Get(parse(written.value).value, Path(key).value) == Some(v)
    ensures var written := RenderJson(parse, render, Some(prior), key, Some(text), kind);
            written.Ok? && !kind.Json? ==>
              parse(written.value).Some? && Get(parse(written.value).value, Path(key).value) == Some(String(text))
  {
    if RenderJson(parse, render, Some(prior), key, Some(render(v)), SecretType.Json).Ok? {
      WriteIsFramed(parse, render, prior, key, render(v), SecretType.Json, key);
    }
    if RenderJson(parse, render, Some(prior), key, Some(text), kind).Ok? {
      WriteIsFramed(parse, render, prior, key, text, kind, key);
    }
  }

  /** Only a field that is already there can be set: an empty file refuses every key but the whole document. */
  lemma EmptyFileRefuses(parse: string -> Option<Json>, render: Json -> string,
                         key: string, payload: Option<string>, kind: SecretType)
    requires key != ""
    ensures RenderJson(parse, render, Some(""), key, payload, kind).Err?
  {
    if Path(key).Some? {
      assert |Path(key).value| > 0;
    }
  }

  /** Two writes at incomparable pointers commute, and the one does not make the other fail. */
  lemma WritesCommute(parse: string -> Option<Json>, render: Json -> string, prior: string,
                      key: string, payload: string, kind: SecretType, other: string, more: string, sort: SecretType)
    requires Codec(parse, render)
    ensures var one := RenderJson(parse, render, Some(prior), key, Some(payload), kind);
            var two := RenderJson(parse, render, Some(prior), other, Some(more), sort);
            one.Ok? && two.Ok? && !Comparable(Path(key).value, Path(other).value) ==>
              RenderJson(parse, render, Some(one.value), other, Some(more), sort).Ok? &&
              RenderJson(parse, render, Some(one.value), other, Some(more), sort) ==
              RenderJson(parse, render, Some(two.value), key, Some(payload), kind)
  {
    var one := RenderJson(parse, render, Some(prior), key, Some(payload), kind);
    var two := RenderJson(parse, render, Some(prior), other, Some(more), sort);
    if one.Ok? && two.Ok? && !Comparable(Path(key).value, Path(other).value) {
      ReplacementsCommute(Document(parse, prior).value, Path(key).value, Replacement(parse, payload, kind).value,
                          Path(other).value, Replacement(parse, more, sort).value);
    }
  }
}
