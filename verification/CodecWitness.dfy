/** Codecs that obey the laws of `Targets`, so that what is proved under those laws is not empty. */
module CodecWitness {
  import opened Basics
  import opened Targets
  import J = JsonPointer

  // ---- inverses ----

  /** What `f` maps to a value, if anything. */
  ghost function Inverse<A(!new), B>(f: A -> B): B -> Option<A> {
    b => if exists a :: f(a) == b then var a :| f(a) == b; Some(a) else None
  }

  lemma InverseUndoes<A(!new), B>(f: A -> B, a: A)
    requires forall x, y | f(x) == f(y) :: x == y
    ensures Inverse(f)(f(a)) == Some(a)
  {
  }

  // ---- texts as bytes ----

  /** Three bytes for each character. */
  function ToBytes(s: string): Bytes {
    if s == "" then [] else
      var c := s[0] as int;
      [(c / 65536) as byte, (c / 256 % 256) as byte, (c % 256) as byte] + ToBytes(s[1..])
  }

  lemma {:induction false} ToBytesInjective(s: string, t: string)
    requires ToBytes(s) == ToBytes(t)
    ensures s == t
  {
    if s != "" && t != "" {
      var a, b := ToBytes(s), ToBytes(t);
      assert a[0] == b[0] && a[1] == b[1] && a[2] == b[2];
      assert s[0] as int == t[0] as int;
      assert ToBytes(s[1..]) == a[3..] == b[3..] == ToBytes(t[1..]);
      ToBytesInjective(s[1..], t[1..]);
    }
  }

  // ---- documents as texts ----

  /** Every character is announced, so that the end can be told. */
  function Quote(s: string): string {
    if s == "" then ";" else "." + [s[0]] + Quote(s[1..])
  }

  lemma {:induction false} QuoteEnds(s: string, x: string, t: string, y: string)
    requires Quote(s) + x == Quote(t) + y
    ensures s == t && x == y
  {
    var a, b := Quote(s) + x, Quote(t) + y;
    assert a[0] == b[0];
    if s == "" {
      assert a[1..] == x && b[1..] == y;
    } else {
      assert a[1] == b[1] && a[2..] == Quote(s[1..]) + x && b[2..] == Quote(t[1..]) + y;
      QuoteEnds(s[1..], x, t[1..], y);
    }
  }

  ghost function Pick(m: map<string, J.Json>): (k: string)
    requires m != map[]
    ensures k in m
  {
    var k :| k in m;
    k
  }

  function Tag(doc: J.Json): char {
    match doc
    case Null => 'n'
    case Bool(b) => if b then 't' else 'f'
    case Number(_) => 'd'
    case String(_) => 's'
    case Array(_) => 'a'
    case Object(_) => 'o'
  }

  ghost function Render(doc: J.Json): string
    decreases doc, 2, 0
  {
    [Tag(doc)] + Body(doc)
  }

  ghost function Body(doc: J.Json): string
    decreases doc, 1, 0
  {
    match doc
    case Null => ""
    case Bool(_) => ""
    case Number(text) => Quote(text)
    case String(value) => Quote(value)
    case Array(items) => RenderItems(items)
    case Object(fields) => RenderFields(doc, fields)
  }

  ghost function RenderItems(items: seq<J.Json>): string {
    if items == [] then ";" else "." + Render(items[0]) + RenderItems(items[1..])
  }

  /** The fields that are left of a document. */
  ghost function RenderFields(doc: J.Json, left: map<string, J.Json>): string
    requires forall k | k in left :: left[k] < doc
    decreases doc, 0, |left|
  {
    if left == map[] then ";" else
      var k := Pick(left);
      "." + Quote(k) + (Render(left[k]) + RenderFields(doc, left - {k}))
  }

  lemma Apart(c: char, s: string, x: string, d: char, t: string, y: string)
    requires [c] + s + x == [d] + t + y
    ensures c == d && s + x == t + y
  {
    assert ([c] + s + x)[0] == c && ([d] + t + y)[0] == d;
    assert ([c] + s + x)[1..] == s + x && ([d] + t + y)[1..] == t + y;
  }

  /** No rendering is the beginning of another, so it can be told where one ends. */
  lemma {:induction false} RenderEnds(a: J.Json, x: string, b: J.Json, y: string)
    requires Render(a) + x == Render(b) + y
    ensures a == b && x == y
    decreases a, 2, 0
  {
    Apart(Tag(a), Body(a), x, Tag(b), Body(b), y);
    BodyEnds(a, x, b, y);
  }

  lemma {:induction false} BodyEnds(a: J.Json, x: string, b: J.Json, y: string)
    requires Tag(a) == Tag(b) && Body(a) + x == Body(b) + y
    ensures a == b && x == y
    decreases a, 1, 0
  {
    match a
    case Null => assert "" + x == x && "" + y == y;
    case Bool(_) => assert "" + x == x && "" + y == y;
    case Number(text) => QuoteEnds(text, x, b.text, y);
    case String(value) => QuoteEnds(value, x, b.value, y);
    case Array(items) => ItemsEnd(items, x, b.items, y);
    case Object(fields) => FieldsEnd(a, fields, x, b, b.fields, y);
  }

  lemma Regroup(s: string, t: string, x: string)
    ensures "." + s + t + x == "." + s + (t + x)
  {
  }

  lemma {:induction false} ItemsEnd(items: seq<J.Json>, x: string, others: seq<J.Json>, y: string)
    requires RenderItems(items) + x == RenderItems(others) + y
    ensures items == others && x == y
  {
    assert (RenderItems(items) + x)[0] == (RenderItems(others) + y)[0];
    if items == [] {
      assert (";" + x)[1..] == x && (";" + y)[1..] == y;
    } else {
      var more, rest := RenderItems(items[1..]) + x, RenderItems(others[1..]) + y;
      Regroup(Render(items[0]), RenderItems(items[1..]), x);
      Regroup(Render(others[0]), RenderItems(others[1..]), y);
      Apart('.', Render(items[0]), more, '.', Render(others[0]), rest);
      RenderEnds(items[0], more, others[0], rest);
      ItemsEnd(items[1..], x, others[1..], y);
      assert items == [items[0]] + items[1..] && others == [others[0]] + others[1..];
    }
  }

  lemma {:induction false} FieldEnds(j: string, u: J.Json, more: string, x: string, k: string, v: J.Json, rest: string, y: string)
    requires "." + Quote(j) + (Render(u) + more) + x == "." + Quote(k) + (Render(v) + rest) + y
    ensures j == k && u == v && more + x == rest + y
    decreases u, 3, 0
  {
    Regroup(Quote(j), Render(u) + more, x);
    Regroup(Quote(k), Render(v) + rest, y);
    Apart('.', Quote(j), Render(u) + more + x, '.', Quote(k), Render(v) + rest + y);
    QuoteEnds(j, Render(u) + more + x, k, Render(v) + rest + y);
    assert Render(u) + more + x == Render(u) + (more + x);
    assert Render(v) + rest + y == Render(v) + (rest + y);
    RenderEnds(u, more + x, v, rest + y);
  }

  lemma {:induction false} FieldsEnd(a: J.Json, left: map<string, J.Json>, x: string,
                                     b: J.Json, others: map<string, J.Json>, y: string)
    requires forall k | k in left :: left[k] < a
    requires forall k | k in others :: others[k] < b
    requires RenderFields(a, left) + x == RenderFields(b, others) + y
    ensures left == others && x == y
    decreases a, 0, |left|
  {
    assert (RenderFields(a, left) + x)[0] == (RenderFields(b, others) + y)[0];
    if left == map[] {
      assert (";" + x)[1..] == x && (";" + y)[1..] == y;
    } else {
      var j, k := Pick(left), Pick(others);
      FieldEnds(j, left[j], RenderFields(a, left - {j}), x, k, others[k], RenderFields(b, others - {k}), y);
      FieldsEnd(a, left - {j}, x, b, others - {k}, y);
      SameFields(left, others, k);
    }
  }

  lemma SameFields(m: map<string, J.Json>, n: map<string, J.Json>, k: string)
    requires k in m && k in n && m[k] == n[k] && m - {k} == n - {k}
    ensures m == n
  {
    assert m == (m - {k})[k := m[k]] && n == (n - {k})[k := n[k]];
  }

  lemma RenderInjective(a: J.Json, b: J.Json)
    requires Render(a) == Render(b)
    ensures a == b
  {
    assert Render(a) + "" == Render(a) && Render(b) + "" == Render(b);
    RenderEnds(a, "", b, "");
  }

  // ---- the codecs ----

  ghost function Parse(): string -> Option<J.Json> { Inverse(doc => Render(doc)) }

  /** The document is read, changed and written again. */
  ghost function EditText(text: string, path: seq<string>, value: string): string {
    var doc := Parse()(text);
    if doc.None? || J.Put(doc.value, path, J.String(value)).None? then text
    else Render(J.Put(doc.value, path, J.String(value)).value)
  }

  ghost function Witness(): Codecs {
    Codecs(Inverse(s => ToBytes(s)), s => ToBytes(s), Parse(), doc => Render(doc), Parse(),
           (text, path, value) => EditText(text, path, value))
  }

  lemma ParseUndoes(doc: J.Json)
    ensures Parse()(Render(doc)) == Some(doc)
  {
    forall a, b | Render(a) == Render(b) ensures a == b {
      RenderInjective(a, b);
    }
    InverseUndoes(d => Render(d), doc);
  }

  lemma DecodeUndoes(s: string)
    ensures Witness().decode(Witness().encode(s)) == Some(s)
  {
    forall a, b | ToBytes(a) == ToBytes(b) ensures a == b {
      ToBytesInjective(a, b);
    }
    InverseUndoes(t => ToBytes(t), s);
  }

  lemma EditReplaces(text: string, path: seq<string>, value: string)
    requires Parse()(text).Some? && MappingsTo(Parse()(text).value, path)
    ensures Parse()(EditText(text, path, value)) == J.Put(Parse()(text).value, path, J.String(value))
  {
    MappingsReach(Parse()(text).value, path);
    J.ReadsBack(Parse()(text).value, path, J.String(value), []);
    ParseUndoes(J.Put(Parse()(text).value, path, J.String(value)).value);
  }

  /** Lawful codecs exist. */
  lemma WitnessIsLawful()
    ensures Lawful(Witness())
  {
    forall s ensures Witness().decode(Witness().encode(s)) == Some(s) {
      DecodeUndoes(s);
    }
    assert Witness().encode("") == [];
    forall doc ensures Parse()(Render(doc)) == Some(doc) && Render(doc) != "" {
      ParseUndoes(doc);
    }
    forall text, path, value | path != [] && Parse()(text).Some? && MappingsTo(Parse()(text).value, path)
      ensures Parse()(EditText(text, path, value)) == J.Put(Parse()(text).value, path, J.String(value))
    {
      EditReplaces(text, path, value);
    }
  }
}
