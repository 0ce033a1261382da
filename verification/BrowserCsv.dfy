/**
 * Importing a browser's password export. A text is a sequence of bytes, one character each. `StrictQuotes` and
 * `Parse` are the importer's loops; the record reader itself (csv-core) is specified by section 2 of RFC 4180: what
 * fields an accepted text splits into, and which records they form.
 */
module BrowserCsv {
  import opened Basics
  import opened Decimal

  datatype CsvError = Malformed | Incomplete | Invalid

  predicate Separator(c: char) { c == ',' || c == '\r' || c == '\n' }

  // ---- the quote automaton ----

  datatype State = Start | Plain | Quoted | Closed

  function Next(state: State, c: char): Option<State> {
    match state
    case Start => Some(if c == '"' then Quoted else if Separator(c) then Start else Plain)
    case Plain => if c == '"' then None else Some(if Separator(c) then Start else Plain)
    case Quoted => Some(if c == '"' then Closed else Quoted)
    case Closed => if c == '"' then Some(Quoted) else if Separator(c) then Some(Start) else None
  }

  /** The state after reading a text, if no byte of it is out of place. */
  function After(state: State, s: string): Option<State> {
    if s == "" then Some(state)
    else match After(state, s[..|s| - 1]) case None => None case Some(t) => Next(t, s[|s| - 1])
  }

  function Verdict(s: string): Result<(), CsvError> {
    match After(Start, s)
    case None => Err(Malformed)
    case Some(t) => if t.Quoted? then Err(Incomplete) else Ok(())
  }

  lemma {:induction false} StaysMalformed(s: string, n: nat)
    requires n <= |s| && After(Start, s[..n]).None?
    ensures After(Start, s).None?
  {
    if n < |s| {
      assert s[..|s| - 1][..n] == s[..n];
      StaysMalformed(s[..|s| - 1], n);
    } else {
      assert s[..n] == s;
    }
  }

  method StrictQuotes(bytes: string) returns (r: Result<(), CsvError>)
    ensures r == Verdict(bytes)
  {
    var state := Start;
    for i := 0 to |bytes|
      invariant After(Start, bytes[..i]) == Some(state)
    {
      assert bytes[..i + 1][..i] == bytes[..i];
      var next := Next(state, bytes[i]);
      if next.None? {
        StaysMalformed(bytes, i + 1);
        return Err(Malformed);
      }
      state := next.value;
    }
    assert bytes[..|bytes|] == bytes;
    if state.Quoted? {
      return Err(Incomplete);
    }
    r := Ok(());
  }

  // ---- what a text is made of ----

  datatype Field = BareField(text: string) | QuotedField(text: string)

  /** A text field by field, with the separator behind each but the last. */
  datatype Layout = Last(field: Field) | Then(field: Field, separator: char, rest: Layout)

  function Doubled(s: string): string {
    if s == "" then "" else (if s[0] == '"' then "\"\"" else [s[0]]) + Doubled(s[1..])
  }

  function Open(f: Field): string { if f.QuotedField? then "\"" else "" }

  function Body(f: Field): string { if f.QuotedField? then Doubled(f.text) + "\"" else f.text }

  /** A layout's text behind the opening quote of its first field. */
  function Remainder(l: Layout): string
    decreases l, 0
  {
    match l
    case Last(f) => Body(f)
    case Then(f, c, rest) => Body(f) + ([c] + Assemble(rest))
  }

  function Assemble(l: Layout): string
    decreases l, 1
  {
    Open(l.field) + Remainder(l)
  }

  predicate ValidField(f: Field) { f.BareField? ==> forall c | c in f.text :: c != '"' && !Separator(c) }

  predicate ValidLayout(l: Layout) {
    ValidField(l.field) && (l.Then? ==> Separator(l.separator) && ValidLayout(l.rest))
  }

  /** The layout with `before` put in front of its first field's text. */
  function Prepend(before: string, l: Layout): Layout {
    match l
    case Last(f) => Last(f.(text := before + f.text))
    case Then(f, c, rest) => Then(f.(text := before + f.text), c, rest)
  }

  function PrependTo(before: string, l: Option<Layout>): Option<Layout> {
    match l case None => None case Some(m) => Some(Prepend(before, m))
  }

  function ThenSplit(f: Field, c: char, l: Option<Layout>): Option<Layout> {
    match l case None => None case Some(m) => Some(Then(f, c, m))
  }

  /** The layout of the text behind a point where the automaton is in `state`; inside a field, that field's remainder. */
  function Split(state: State, s: string): Option<Layout>
    decreases |s|, if state.Start? then 1 else 0
  {
    match state
    case Start => if s != "" && s[0] == '"' then Split(Quoted, s[1..]) else Split(Plain, s)
    case Plain =>
      if s == "" then Some(Last(BareField("")))
      else if Separator(s[0]) then ThenSplit(BareField(""), s[0], Split(Start, s[1..]))
      else if s[0] == '"' then None
      else PrependTo([s[0]], Split(Plain, s[1..]))
    case Quoted =>
      if s == "" then None
      else if s[0] == '"' then Split(Closed, s[1..])
      else PrependTo([s[0]], Split(Quoted, s[1..]))
    case Closed =>
      if s == "" then Some(Last(QuotedField("")))
      else if Separator(s[0]) then ThenSplit(QuotedField(""), s[0], Split(Start, s[1..]))
      else if s[0] == '"' then PrependTo("\"", Split(Quoted, s[1..]))
      else None
  }

  lemma {:induction false} AfterFront(state: State, c: char, s: string)
    ensures After(state, [c] + s) == match Next(state, c) case None => None case Some(t) => After(t, s)
  {
    if s == "" {
      assert [c] + s == [c];
      assert [c][..0] == "";
    } else {
      AfterFront(state, c, s[..|s| - 1]);
      assert ([c] + s)[..|s|] == [c] + s[..|s| - 1];
    }
  }

  /** The automaton accepts exactly what splits. */
  lemma {:induction false} AcceptsWhatSplits(state: State, s: string)
    ensures Split(state, s).Some? <==> After(state, s).Some? && !After(state, s).value.Quoted?
    decreases |s|
  {
    if s != "" {
      assert [s[0]] + s[1..] == s;
      AfterFront(state, s[0], s[1..]);
      if Next(state, s[0]).Some? {
        AcceptsWhatSplits(Next(state, s[0]).value, s[1..]);
      }
      if state.Start? && s[0] != '"' && !Separator(s[0]) {
        assert Split(Plain, s) == PrependTo([s[0]], Split(Plain, s[1..]));
      }
    }
  }

  lemma DoubledFront(c: char, s: string)
    ensures Doubled([c] + s) == (if c == '"' then "\"\"" else [c]) + Doubled(s)
  {
    assert ([c] + s)[1..] == s;
  }

  lemma RemainderPrepend(c: char, l: Layout)
    ensures Remainder(Prepend([c], l)) == (if l.field.QuotedField? && c == '"' then "\"\"" else [c]) + Remainder(l)
  {
    BodyPrepend(c, l.field);
    match l
    case Last(_) =>
    case Then(f, d, rest) =>
      var b := if f.QuotedField? && c == '"' then "\"\"" else [c];
      assert (b + Body(f)) + ([d] + Assemble(rest)) == b + (Body(f) + ([d] + Assemble(rest)));
  }

  lemma BodyPrepend(c: char, f: Field)
    ensures Body(f.(text := [c] + f.text)) == (if f.QuotedField? && c == '"' then "\"\"" else [c]) + Body(f)
  {
    DoubledFront(c, f.text);
  }

  lemma {:induction false} SplitIsValid(state: State, s: string)
    requires Split(state, s).Some?
    ensures ValidLayout(Split(state, s).value)
    ensures state.Plain? ==> Split(state, s).value.field.BareField?
    ensures state.Quoted? || state.Closed? ==> Split(state, s).value.field.QuotedField?
    decreases |s|, if state.Start? then 1 else 0
  {
    match state
    case Start =>
      if s != "" && s[0] == '"' {
        SplitIsValid(Quoted, s[1..]);
      } else {
        SplitIsValid(Plain, s);
      }
    case Plain =>
      if s != "" {
        SplitIsValid(if Separator(s[0]) then Start else Plain, s[1..]);
      }
    case Quoted => SplitIsValid(if s[0] == '"' then Closed else Quoted, s[1..]);
    case Closed =>
      if s != "" {
        SplitIsValid(if Separator(s[0]) then Start else Quoted, s[1..]);
      }
  }

  /** What a split yields is a layout of the text it was given. */
  lemma {:induction false} SplitAssembles(state: State, s: string)
    requires Split(state, s).Some?
    ensures var l := Split(state, s).value;
            if state.Start? then Assemble(l) == s
            else if state.Closed? then Remainder(l) == "\"" + s
            else Remainder(l) == s
    decreases |s|, if state.Start? then 2 else 1
  {
    SplitIsValid(state, s);
    match state
    case Start =>
      if s != "" && s[0] == '"' {
        SplitIsValid(Quoted, s[1..]);
        SplitAssembles(Quoted, s[1..]);
      } else {
        SplitIsValid(Plain, s);
        SplitAssembles(Plain, s);
      }
    case Plain =>
      if s != "" {
        if Separator(s[0]) {
          SplitAssembles(Start, s[1..]);
        } else {
          SplitIsValid(Plain, s[1..]);
          SplitAssembles(Plain, s[1..]);
          RemainderPrepend(s[0], Split(Plain, s[1..]).value);
        }
      }
    case Quoted =>
      SplitAssembles(if s[0] == '"' then Closed else Quoted, s[1..]);
      if s[0] != '"' {
        SplitIsValid(Quoted, s[1..]);
        RemainderPrepend(s[0], Split(Quoted, s[1..]).value);
      }
    case Closed => ClosedAssembles(s);
  }

  lemma {:induction false} ClosedAssembles(s: string)
    requires Split(Closed, s).Some?
    ensures Remainder(Split(Closed, s).value) == "\"" + s
    decreases |s|, 0
  {
    assert Body(QuotedField("")) == "\"";
    if s != "" {
      if Separator(s[0]) {
        SplitAssembles(Start, s[1..]);
        assert [s[0]] + s[1..] == s;
      } else {
        SplitIsValid(Quoted, s[1..]);
        SplitAssembles(Quoted, s[1..]);
        RemainderPrepend('"', Split(Quoted, s[1..]).value);
      }
    }
  }

  function Size(l: Layout): nat { if l.Last? then 0 else Size(l.rest) + 1 }

  /** Every layout's text splits into that layout. */
  lemma {:induction false} AssembledSplits(l: Layout)
    requires ValidLayout(l)
    ensures Split(Start, Assemble(l)) == Some(l)
    decreases Size(l), 1, 0
  {
    RemainderSplits(l);
    if l.field.QuotedField? {
      assert Assemble(l)[1..] == Remainder(l);
    } else {
      assert Assemble(l) == Remainder(l);
      BareStart(l);
    }
  }

  lemma BareStart(l: Layout)
    requires ValidLayout(l) && l.field.BareField?
    ensures Remainder(l) != "" ==> Remainder(l)[0] != '"'
  {
    if l.field.text != "" {
      assert l.field.text[0] in l.field.text;
    }
  }

  lemma {:induction false} RemainderSplits(l: Layout)
    requires ValidLayout(l)
    ensures Split(if l.field.QuotedField? then Quoted else Plain, Remainder(l)) == Some(l)
    decreases Size(l), 0, |l.field.text|
  {
    var f := l.field;
    if f.text == "" {
      var r := Remainder(l);
      if l.Then? {
        AssembledSplits(l.rest);
        var tail := [l.separator] + Assemble(l.rest);
        assert tail[0] == l.separator && tail[1..] == Assemble(l.rest);
        if f.QuotedField? {
          assert r == "\"" + tail && r[1..] == tail;
        } else {
          assert r == "" + tail && r == tail;
        }
      } else if f.QuotedField? {
        assert r == "\"" && r[1..] == "";
      }
    } else {
      var c, less := f.text[0], f.(text := f.text[1..]);
      var m := if l.Last? then Last(less) else Then(less, l.separator, l.rest);
      assert [c] + less.text == f.text && c in f.text && forall d | d in less.text :: d in f.text;
      assert Prepend([c], m) == l;
      RemainderPrepend(c, m);
      RemainderSplits(m);
      var r := Remainder(l);
      if f.QuotedField? && c == '"' {
        assert r[0] == '"' && r[1..][0] == '"' && r[1..][1..] == Remainder(m);
      } else {
        assert r[0] == c && r[1..] == Remainder(m);
      }
    }
  }

  /** Quoting is accepted exactly when the text splits into bare fields without quotes and well-quoted fields. */
  lemma QuotesExact(s: string)
    ensures Verdict(s).Ok? <==> exists l :: ValidLayout(l) && Assemble(l) == s
  {
    AcceptsWhatSplits(Start, s);
    if Split(Start, s).Some? {
      SplitAssembles(Start, s);
      SplitIsValid(Start, s);
    }
    if l :| ValidLayout(l) && Assemble(l) == s {
      AssembledSplits(l);
    }
  }

  /** And it splits in one way only. */
  lemma SplitUnique(l: Layout, m: Layout)
    requires ValidLayout(l) && ValidLayout(m) && Assemble(l) == Assemble(m)
    ensures l == m
  {
    AssembledSplits(l);
    AssembledSplits(m);
  }

  // ---- records ----

  function Contents(fields: seq<Field>): (r: seq<string>)
    ensures |r| == |fields| && forall i | 0 <= i < |fields| :: r[i] == fields[i].text
  {
    seq(|fields|, i requires 0 <= i < |fields| => fields[i].text)
  }

  /** A line with nothing on it, not even quotes, is no record. */
  function Emit(line: seq<Field>): seq<seq<string>> { if line == [BareField("")] then [] else [Contents(line)] }

  /** The records of a layout: commas end fields, CR and LF end records. */
  function Records(l: Layout, before: seq<Field>): seq<seq<string>> {
    match l
    case Last(f) => Emit(before + [f])
    case Then(f, c, rest) =>
      if c == ',' then Records(rest, before + [f]) else Emit(before + [f]) + Records(rest, [])
  }

  // ---- the importer ----

  type Entry = (string, map<string, string>)

  const MAX_BYTES := 8 * 1024 * 1024
  const MAX_ENTRIES := 1000
  const BOM := "\U{ef}\U{bb}\U{bf}"
  const COLUMNS := {"name", "url", "username", "password", "notes"}

  function ColumnName(header: string): Option<string> {
    if header == "note" then Some("notes") else if header in COLUMNS then Some(header) else None
  }

  /** `{:04}`. */
  function Padded(n: nat): string {
    var d := Digits(n);
    if |d| == 1 then "000" + d else if |d| == 2 then "00" + d else if |d| == 3 then "0" + d else d
  }

  function EntryId(prefix: string, n: nat): string { prefix + "-" + Padded(n) }

  predicate ValidPrefix(prefix: string) { SafeLabel(prefix) && |prefix| <= 48 }

  predicate Names(header: seq<string>, name: string) {
    exists i | 0 <= i < |header| :: ColumnName(header[i]) == Some(name)
  }

  /** The header: known names, each once, the three required ones among them. */
  predicate ValidHeader(header: seq<string>) {
    && (forall i | 0 <= i < |header| :: ColumnName(header[i]).Some?)
    && (forall i, j | 0 <= i < j < |header| :: ColumnName(header[i]) != ColumnName(header[j]))
    && Names(header, "url") && Names(header, "username") && Names(header, "password")
  }

  function Columns(header: seq<string>): (r: seq<string>)
    requires ValidHeader(header)
    ensures |r| == |header| && forall i | 0 <= i < |r| :: ColumnName(header[i]) == Some(r[i])
    ensures forall i, j | 0 <= i < j < |r| :: r[i] != r[j]
  {
    seq(|header|, i requires 0 <= i < |header| => ColumnName(header[i]).value)
  }

  lemma ColumnsHold(header: seq<string>, name: string)
    requires ValidHeader(header) && Names(header, name)
    ensures name in Columns(header)
  {
    var i :| 0 <= i < |header| && ColumnName(header[i]) == Some(name);
    assert Columns(header)[i] == name;
  }

  /** The values by column name. */
  function RecordOf(columns: seq<string>, values: seq<string>): map<string, string>
    requires |columns| == |values|
  {
    if columns == [] then map[]
    else RecordOf(columns[..|columns| - 1], values[..|columns| - 1])[columns[|columns| - 1] := values[|columns| - 1]]
  }

  predicate ValidRow(columns: seq<string>, values: seq<string>) {
    && |values| == |columns|
    && var record := RecordOf(columns, values);
       "url" in record && record["url"] != "" && "password" in record && record["password"] != ""
  }

  lemma {:induction false} RecordHolds(columns: seq<string>, values: seq<string>)
    requires |columns| == |values| && forall i, j | 0 <= i < j < |columns| :: columns[i] != columns[j]
    ensures forall i | 0 <= i < |columns| :: columns[i] in RecordOf(columns, values) && RecordOf(columns, values)[columns[i]] == values[i]
  {
    if columns != [] {
      var last := |columns| - 1;
      RecordHolds(columns[..last], values[..last]);
      assert forall i | 0 <= i < last :: columns[..last][i] == columns[i] && values[..last][i] == values[i];
    }
  }

  /** The first record is the header; each later one, of which there are at most 1000, has a value for every column. */
  predicate ValidRecord(records: seq<seq<string>>, n: nat, utf8: string -> bool)
    requires n < |records|
  {
    && (forall j | 0 <= j < |records[n]| :: utf8(records[n][j]))
    && ValidHeader(records[0])
    && (n > 0 ==> n <= MAX_ENTRIES && ValidRow(Columns(records[0]), records[n]))
  }

  predicate AllValid(records: seq<seq<string>>, n: nat, utf8: string -> bool)
    requires n <= |records|
  {
    n > 0 ==> AllValid(records, n - 1, utf8) && ValidRecord(records, n - 1, utf8)
  }

  predicate Importable(records: seq<seq<string>>, utf8: string -> bool) {
    |records| >= 2 && AllValid(records, |records|, utf8)
  }

  lemma {:induction false} AllValidPrefix(records: seq<seq<string>>, n: nat, m: nat, utf8: string -> bool)
    requires n <= m <= |records| && AllValid(records, m, utf8)
    ensures AllValid(records, n, utf8)
  {
    if n < m {
      AllValidPrefix(records, n, m - 1, utf8);
    }
  }

  /** One entry for each of the first `n` records but the header, named by its place. */
  function Entries(records: seq<seq<string>>, n: nat, prefix: string, utf8: string -> bool): (r: seq<Entry>)
    requires n <= |records| && AllValid(records, n, utf8)
    ensures |r| == if n == 0 then 0 else n - 1
  {
    if n <= 1 then [] else Entries(records, n - 1, prefix, utf8) + [EntryOf(records, prefix, n - 1, utf8)]
  }

  function EntryOf(records: seq<seq<string>>, prefix: string, n: nat, utf8: string -> bool): Entry
    requires 0 < n < |records| && ValidRecord(records, n, utf8)
  {
    (EntryId(prefix, n), RecordOf(Columns(records[0]), records[n]))
  }

  function StripBom(bytes: string): string { if BOM <= bytes then bytes[3..] else bytes }

  /** The result of `Parse`. */
  function Parsed(bytes: string, prefix: string, utf8: string -> bool): Result<seq<Entry>, CsvError> {
    var text := StripBom(bytes);
    if bytes == "" || |bytes| > MAX_BYTES || !ValidPrefix(prefix) then Err(Invalid)
    else if Verdict(text).Err? then Err(Verdict(text).error)
    else
      AcceptsWhatSplits(Start, text);
      var records := Records(Split(Start, text).value, []);
      if Importable(records, utf8) then Ok(Entries(records, |records|, prefix, utf8)) else Err(Invalid)
  }

  /** The header record of `parse`: an error at the first unknown or repeated name, or when a required one is missing. */
  method ReadHeader(values: seq<string>) returns (r: Option<seq<string>>)
    ensures r == if ValidHeader(values) then Some(Columns(values)) else None
  {
    var names := [];
    for i := 0 to |values|
      invariant |names| == i
      invariant forall k | 0 <= k < i :: ColumnName(values[k]) == Some(names[k])
      invariant forall j, k | 0 <= j < k < i :: names[j] != names[k]
    {
      var name := ColumnName(values[i]);
      if name.None? || name.value in names {
        return None;
      }
      names := names + [name.value];
    }
    NamesFound(values, names, "url");
    NamesFound(values, names, "username");
    NamesFound(values, names, "password");
    if "url" !in names || "username" !in names || "password" !in names {
      return None;
    }
    assert names == Columns(values);
    r := Some(names);
  }

  lemma NamesFound(values: seq<string>, names: seq<string>, name: string)
    requires |names| == |values| && forall k | 0 <= k < |values| :: ColumnName(values[k]) == Some(names[k])
    ensures Names(values, name) <==> name in names
  {
    if name in names {
      var k :| 0 <= k < |names| && names[k] == name;
      assert ColumnName(values[k]) == Some(name);
    }
  }

  /** A record behind the header: `n` counts the entries made so far plus this one. */
  method ReadRow(records: seq<seq<string>>, n: nat, columns: seq<string>, prefix: string, utf8: string -> bool)
    returns (r: Option<Entry>)
    requires 0 < n < |records| && ValidHeader(records[0]) && columns == Columns(records[0])
    requires forall j | 0 <= j < |records[n]| :: utf8(records[n][j])
    ensures r == if ValidRecord(records, n, utf8) then Some(EntryOf(records, prefix, n, utf8)) else None
  {
    var values := records[n];
    if |values| != |columns| || n - 1 >= MAX_ENTRIES {
      return None;
    }
    var record := RecordOf(columns, values);
    RecordHolds(columns, values);
    ColumnsHold(records[0], "url");
    ColumnsHold(records[0], "password");
    if record["url"] == "" || record["password"] == "" {
      return None;
    }
    r := Some((EntryId(prefix, n), record));
  }

  /** The record loop of `parse`. */
  method ReadRecords(records: seq<seq<string>>, prefix: string, utf8: string -> bool) returns (r: Result<seq<Entry>, CsvError>)
    ensures r == if Importable(records, utf8) then Ok(Entries(records, |records|, prefix, utf8)) else Err(Invalid)
  {
    var columns: Option<seq<string>> := None;
    var entries: seq<Entry> := [];
    for n := 0 to |records|
      invariant n > 0 ==> ValidHeader(records[0])
      invariant AllValid(records, n, utf8)
      invariant columns == if n == 0 then None else Some(Columns(records[0]))
      invariant entries == Entries(records, n, prefix, utf8)
    {
      var values := records[n];
      if AllValid(records, |records|, utf8) {
        AllValidPrefix(records, n + 1, |records|, utf8);
      }
      if exists j | 0 <= j < |values| :: !utf8(values[j]) {
        return Err(Invalid);
      }
      if columns.Some? {
        var entry := ReadRow(records, |entries| + 1, columns.value, prefix, utf8);
        if entry.None? {
          return Err(Invalid);
        }
        entries := entries + [entry.value];
      } else {
        columns := ReadHeader(values);
        if columns.None? {
          return Err(Invalid);
        }
      }
    }
    if entries == [] {
      return Err(Invalid);
    }
    r := Ok(entries);
  }

  /** `parse`. That its fields are UTF-8 is asked of `utf8`. */
  method Parse(bytes: string, prefix: string, utf8: string -> bool) returns (r: Result<seq<Entry>, CsvError>)
    ensures r == Parsed(bytes, prefix, utf8)
  {
    if bytes == "" || |bytes| > MAX_BYTES || !SafeLabel(prefix) || |prefix| > 48 {
      return Err(Invalid);
    }
    var text := StripBom(bytes);
    var quotes := StrictQuotes(text);
    if quotes.Err? {
      return Err(quotes.error);
    }
    AcceptsWhatSplits(Start, text);
    r := ReadRecords(Records(Split(Start, text).value, []), prefix, utf8);
  }

  // ---- exports come back ----

  /** A record's fields, comma separated, then CR LF and the rest. */
  function RowLayout(fields: seq<Field>, rest: Layout): Layout
    requires fields != []
  {
    if |fields| == 1 then Then(fields[0], '\r', Then(BareField(""), '\n', rest))
    else Then(fields[0], ',', RowLayout(fields[1..], rest))
  }

  function FileLayout(rows: seq<seq<Field>>): Layout
    requires forall row | row in rows :: row != []
  {
    if rows == [] then Last(BareField("")) else
    assert rows[0] in rows && forall row | row in rows[1..] :: row in rows;
    RowLayout(rows[0], FileLayout(rows[1..]))
  }

  /** Any rows of any fields, each quoted or, where it needs no quotes, bare: an export as section 2 of RFC 4180 has it. */
  predicate Export(rows: seq<seq<Field>>) {
    && (forall row | row in rows :: row != [] && row != [BareField("")])
    && (forall row | row in rows :: forall f | f in row :: ValidField(f))
  }

  function AllContents(rows: seq<seq<Field>>): (r: seq<seq<string>>)
    ensures |r| == |rows| && forall i | 0 <= i < |rows| :: r[i] == Contents(rows[i])
  {
    seq(|rows|, i requires 0 <= i < |rows| => Contents(rows[i]))
  }

  lemma {:induction false} RowRecords(fields: seq<Field>, rest: Layout, before: seq<Field>)
    requires fields != [] && before + fields != [BareField("")]
    requires (forall f | f in fields :: ValidField(f)) && ValidLayout(rest)
    ensures ValidLayout(RowLayout(fields, rest))
    ensures Records(RowLayout(fields, rest), before) == [Contents(before + fields)] + Records(rest, [])
  {
    if |fields| == 1 {
      assert fields == [fields[0]];
      assert [] + [BareField("")] == [BareField("")];
      assert Records(Then(BareField(""), '\n', rest), []) == [] + Records(rest, []);
    } else {
      assert before + [fields[0]] + fields[1..] == before + fields;
      assert forall f | f in fields[1..] :: f in fields;
      RowRecords(fields[1..], rest, before + [fields[0]]);
    }
  }

  /** The records of an export's text are its rows: separators, line breaks and quotes inside fields change nothing. */
  lemma {:induction false} ExportRecords(rows: seq<seq<Field>>)
    requires Export(rows)
    ensures ValidLayout(FileLayout(rows)) && Records(FileLayout(rows), []) == AllContents(rows)
  {
    if rows == [] {
      assert [] + [BareField("")] == [BareField("")];
      assert AllContents(rows) == [];
    } else {
      ExportTail(rows);
      ExportRecords(rows[1..]);
      FirstRowRecords(rows[0], FileLayout(rows[1..]));
      ContentsOfRows(rows);
    }
  }

  lemma FirstRowRecords(row: seq<Field>, rest: Layout)
    requires row != [] && row != [BareField("")] && (forall f | f in row :: ValidField(f)) && ValidLayout(rest)
    ensures ValidLayout(RowLayout(row, rest)) && Records(RowLayout(row, rest), []) == [Contents(row)] + Records(rest, [])
  {
    assert [] + row == row;
    RowRecords(row, rest, []);
  }

  lemma ContentsOfRows(rows: seq<seq<Field>>)
    requires rows != []
    ensures [Contents(rows[0])] + AllContents(rows[1..]) == AllContents(rows)
  {
  }

  lemma ExportTail(rows: seq<seq<Field>>)
    requires Export(rows) && rows != []
    ensures Export(rows[1..]) && rows[0] != [] && rows[0] != [BareField("")] && forall f | f in rows[0] :: ValidField(f)
  {
    assert rows[0] in rows && forall row | row in rows[1..] :: row in rows;
  }

  /**
   * Writing a header and 1 to 1000 valid records in any quoting, with or without a byte order mark, and importing the
   * text returns those records, in order, under the ids counted from 1.
   */
  lemma ExportsComeBack(rows: seq<seq<Field>>, mark: bool, prefix: string, utf8: string -> bool)
    requires Export(rows) && Importable(AllContents(rows), utf8) && ValidPrefix(prefix)
    requires |(if mark then BOM else "") + Assemble(FileLayout(rows))| <= MAX_BYTES
    ensures Parsed((if mark then BOM else "") + Assemble(FileLayout(rows)), prefix, utf8) ==
            Ok(Entries(AllContents(rows), |rows|, prefix, utf8))
  {
    var text := Assemble(FileLayout(rows));
    ExportRecords(rows);
    AssembledSplits(FileLayout(rows));
    AcceptsWhatSplits(Start, text);
    NoMark(rows, utf8);
    MarkStripped(text, mark);
  }

  lemma MarkStripped(text: string, mark: bool)
    requires !(BOM <= text) && text != ""
    ensures StripBom((if mark then BOM else "") + text) == text && (if mark then BOM else "") + text != ""
  {
    if mark {
      assert (BOM + text)[3..] == text;
    } else {
      assert "" + text == text;
    }
  }

  lemma NoMark(rows: seq<seq<Field>>, utf8: string -> bool)
    requires Export(rows) && Importable(AllContents(rows), utf8)
    ensures !(BOM <= Assemble(FileLayout(rows))) && Assemble(FileLayout(rows)) != ""
  {
    AllValidPrefix(AllContents(rows), 1, |rows|, utf8);
    var header := AllContents(rows)[0];
    assert header[0] == rows[0][0].text && ColumnName(header[0]).Some?;
    assert header[0] != "" && header[0][0] != BOM[0];
    assert FileLayout(rows).field == rows[0][0];
  }

  // ---- ids ----

  lemma {:induction false} NumberOfDigits(n: nat)
    ensures AllDigits(Digits(n)) && Number(Digits(n)) == n
  {
    DigitsAreDigits(n);
    if n >= 10 {
      NumberOfDigits(n / 10);
      DigitsAreDigits(n / 10);
      assert Digits(n)[..|Digits(n)| - 1] == Digits(n / 10);
    } else {
      assert Digits(n)[..0] == "";
    }
  }

  lemma {:induction false} LeadingZero(s: string)
    requires AllDigits(s)
    ensures AllDigits("0" + s) && Number("0" + s) == Number(s)
  {
    assert forall c | c in "0" + s :: c == '0' || c in s;
    if s == "" {
      assert "0" + s == "0" && "0"[..0] == "";
    } else {
      var front := s[..|s| - 1];
      assert forall c | c in front :: c in s;
      LeadingZero(front);
      assert ("0" + s)[..|s|] == "0" + front;
      assert ("0" + s)[|s|] == s[|s| - 1];
    }
  }

  lemma {:induction false} ShortDigits(n: nat)
    requires n < 10000
    ensures 1 <= |Digits(n)| <= 4 && (n < 1000 ==> |Digits(n)| <= 3) && (n < 100 ==> |Digits(n)| <= 2)
  {
    if n >= 10 {
      ShortDigits(n / 10);
    }
  }

  lemma PaddedNumber(n: nat)
    ensures AllDigits(Padded(n)) && Number(Padded(n)) == n
    ensures n < 10000 ==> |Padded(n)| == 4
  {
    var d := Digits(n);
    NumberOfDigits(n);
    if n < 10000 {
      ShortDigits(n);
    }
    LeadingZero(d);
    LeadingZero("0" + d);
    LeadingZero("00" + d);
    assert "0" + ("0" + d) == "00" + d && "0" + ("00" + d) == "000" + d;
  }

  /** The entries come out in the order of their records, each with its values under the header's names. */
  lemma {:induction false} EntryAt(records: seq<seq<string>>, n: nat, prefix: string, utf8: string -> bool, i: nat)
    requires n <= |records| && AllValid(records, n, utf8) && i + 1 < n
    ensures ValidRecord(records, i + 1, utf8)
    ensures Entries(records, n, prefix, utf8)[i] == EntryOf(records, prefix, i + 1, utf8)
    ensures forall k | 0 <= k < |records[0]| ::
              ColumnName(records[0][k]).Some? && ColumnName(records[0][k]).value in Entries(records, n, prefix, utf8)[i].1 &&
              Entries(records, n, prefix, utf8)[i].1[ColumnName(records[0][k]).value] == records[i + 1][k]
  {
    if i + 2 < n {
      EntryAt(records, n - 1, prefix, utf8, i);
    } else {
      RecordHolds(Columns(records[0]), records[i + 1]);
      assert forall k | 0 <= k < |records[0]| :: ColumnName(records[0][k]) == Some(Columns(records[0])[k]);
    }
  }

  // ---- the columns by their literal names ----

  /** A header is accepted exactly if it has these texts only, none twice, at most one of the two spellings, and the three required. */
  lemma AcceptedHeaders(header: seq<string>)
    ensures ValidHeader(header) <==>
              && (forall i | 0 <= i < |header| :: header[i] in {"name", "url", "username", "password", "note", "notes"})
              && (forall i, j | 0 <= i < j < |header| :: header[i] != header[j])
              && !("note" in header && "notes" in header)
              && "url" in header && "username" in header && "password" in header
  {
    NamedLiterally(header, "url");
    NamedLiterally(header, "username");
    NamedLiterally(header, "password");
    if "note" in header && "notes" in header {
      var i :| 0 <= i < |header| && header[i] == "note";
      var j :| 0 <= j < |header| && header[j] == "notes";
      assert ColumnName(header[i]) == ColumnName(header[j]) && i != j;
      assert !ValidHeader(header);
    }
  }

  lemma NamedLiterally(header: seq<string>, name: string)
    requires name in {"url", "username", "password"}
    ensures Names(header, name) <==> name in header
  {
    if name in header {
      var i :| 0 <= i < |header| && header[i] == name;
      assert ColumnName(header[i]) == Some(name);
    }
  }

  lemma {:induction false} NoOtherFields(columns: seq<string>, values: seq<string>)
    requires |columns| == |values|
    ensures forall name | name in RecordOf(columns, values) :: name in columns
  {
    if columns != [] {
      NoOtherFields(columns[..|columns| - 1], values[..|columns| - 1]);
    }
  }

  predicate UnderItsName(header: seq<string>, values: seq<string>, entry: map<string, string>, k: nat)
    requires k < |header| == |values|
  {
    && (header[k] in {"name", "url", "username", "password", "notes"} ==> header[k] in entry && entry[header[k]] == values[k])
    && (header[k] == "note" ==> "notes" in entry && entry["notes"] == values[k])
  }

  predicate UnderTheirNames(header: seq<string>, values: seq<string>, entry: map<string, string>) {
    |header| == |values| && forall k | 0 <= k < |header| :: UnderItsName(header, values, entry, k)
  }

  lemma FieldUnderItsName(header: seq<string>, values: seq<string>, k: nat)
    requires ValidHeader(header) && k < |header| == |values|
    ensures UnderItsName(header, values, RecordOf(Columns(header), values), k)
  {
    RecordHolds(Columns(header), values);
    assert ColumnName(header[k]) == Some(Columns(header)[k]);
  }

  lemma FieldsUnderTheirNames(header: seq<string>, values: seq<string>)
    requires ValidHeader(header) && |header| == |values|
    ensures UnderTheirNames(header, values, RecordOf(Columns(header), values))
  {
    forall k | 0 <= k < |header| ensures UnderItsName(header, values, RecordOf(Columns(header), values), k) {
      FieldUnderItsName(header, values, k);
    }
  }

  lemma FieldsComeFromHeader(header: seq<string>, values: seq<string>, name: string)
    requires ValidHeader(header) && |header| == |values| && name in RecordOf(Columns(header), values)
    ensures name in header || (name == "notes" && "note" in header)
  {
    NoOtherFields(Columns(header), values);
    var k :| 0 <= k < |header| && Columns(header)[k] == name;
    assert ColumnName(header[k]) == Some(name) && header[k] in header;
  }

  /**
   * Under its literal name each entry holds the value that its record has in the column of that header text, "note"
   * counting as "notes"; it has no other fields, and its url and password are not empty.
   */
  lemma ImportedFields(records: seq<seq<string>>, n: nat, prefix: string, utf8: string -> bool, i: nat)
    requires n <= |records| && AllValid(records, n, utf8) && i + 1 < n
    ensures var entry := Entries(records, n, prefix, utf8)[i].1;
            && UnderTheirNames(records[0], records[i + 1], entry)
            && (forall name | name in entry :: name in records[0] || (name == "notes" && "note" in records[0]))
            && "url" in entry && entry["url"] != "" && "username" in entry && "password" in entry && entry["password"] != ""
  {
    EntryAt(records, n, prefix, utf8, i);
    AllValidPrefix(records, 1, n, utf8);
    AcceptedHeaders(records[0]);
    FieldsUnderTheirNames(records[0], records[i + 1]);
    forall name | name in RecordOf(Columns(records[0]), records[i + 1])
      ensures name in records[0] || (name == "notes" && "note" in records[0])
    {
      FieldsComeFromHeader(records[0], records[i + 1], name);
    }
    var k :| 0 <= k < |records[0]| && records[0][k] == "username";
    FieldUnderItsName(records[0], records[i + 1], k);
  }

  /** Ids are the prefix, a dash and four digits or more. */
  lemma IdExamples()
    ensures EntryId("browser", 1) == "browser-0001" && EntryId("browser", 42) == "browser-0042"
    ensures EntryId("browser", 1000) == "browser-1000"
  {
    assert Digits(1) == "1" && Digits(42) == "42";
    assert Digits(10) == "10" && Digits(100) == "100" && Digits(1000) == "1000";
  }

  /** Ids of one import are different labels that a vault accepts. */
  lemma IdsAreDistinctLabels(prefix: string, n: nat, m: nat)
    requires ValidPrefix(prefix) && 0 < n <= MAX_ENTRIES
    ensures SafeLabel(EntryId(prefix, n))
    ensures EntryId(prefix, n) == EntryId(prefix, m) ==> n == m
  {
    PaddedNumber(n);
    PaddedNumber(m);
    assert EntryId(prefix, n)[|prefix| + 1..] == Padded(n) && EntryId(prefix, m)[|prefix| + 1..] == Padded(m);
    forall c | c in EntryId(prefix, n) ensures LabelChar(c) {
      assert c in prefix || c == '-' || c in Padded(n);
    }
  }
}
