/**
 * Setting one key in a dotenv or properties file. `RenderKeyValue` is the program's loop; `Upsert` says what it
 * computes line by line, and the lemmas say what that means for a reader of the file and for the next write.
 */
module KeyValue {
  import opened Basics

  datatype Style = SingleQuoted | Properties

  // ---- characters and trimming ----

  /** The Unicode property White_Space, which trimming goes by. */
  predicate White(c: char) {
    || '\U{9}' <= c <= '\U{d}' || c == ' ' || c == '\U{85}' || c == '\U{a0}' || c == '\U{1680}'
    || '\U{2000}' <= c <= '\U{200a}' || c == '\U{2028}' || c == '\U{2029}' || c == '\U{202f}'
    || c == '\U{205f}' || c == '\U{3000}'
  }

  predicate LineEnd(c: char) { c == '\r' || c == '\n' }

  predicate EqualsSign(c: char) { c == '=' }

  predicate LineFeed(c: char) { c == '\n' }

  /** What ends a key in a properties line. */
  predicate Separator(c: char) {
    c == '=' || c == ':' || c == ' ' || c == '\t' || c == '\n' || c == '\U{c}' || c == '\r'
  }

  function TrimStart(s: string): string {
    if s != "" && White(s[0]) then TrimStart(s[1..]) else s
  }

  function TrimEnd(s: string): string {
    if s != "" && White(s[|s| - 1]) then TrimEnd(s[..|s| - 1]) else s
  }

  function Trim(s: string): string { TrimStart(TrimEnd(s)) }

  /** A line without its terminator, and without any further CR or LF at its end. */
  function Body(s: string): string {
    if s != "" && LineEnd(s[|s| - 1]) then Body(s[..|s| - 1]) else s
  }

  /** The first position where `stop` holds, or the length. */
  function Find(s: string, stop: char -> bool): (n: nat)
    ensures n <= |s|
    ensures forall i | 0 <= i < n :: !stop(s[i])
    ensures n < |s| ==> stop(s[n])
  {
    if s == "" || stop(s[0]) then 0 else Find(s[1..], stop) + 1
  }

  // ---- lines ----

  /** `split_inclusive('\n')`. */
  function Lines(s: string): seq<string> {
    if s == "" then []
    else
      var n := Find(s, LineFeed);
      if n == |s| then [s] else [s[..n + 1]] + Lines(s[n + 1..])
  }

  function Join(lines: seq<string>): string {
    if lines == [] then "" else Join(lines[..|lines| - 1]) + lines[|lines| - 1]
  }

  predicate Terminated(line: string) { line != "" && line[|line| - 1] == '\n' }

  predicate EndsCrLf(line: string) { |line| >= 2 && line[|line| - 2] == '\r' && line[|line| - 1] == '\n' }

  predicate OneLine(line: string) { line != "" && forall k | 0 <= k < |line| - 1 :: line[k] != '\n' }

  predicate AreLines(lines: seq<string>) {
    forall i | 0 <= i < |lines| :: OneLine(lines[i]) && (i < |lines| - 1 ==> Terminated(lines[i]))
  }

  predicate HasCrLf(s: string) { exists i | 0 <= i < |s| - 1 :: s[i] == '\r' && s[i + 1] == '\n' }

  function Newline(source: string): string { if HasCrLf(source) then "\r\n" else "\n" }

  lemma {:induction false} JoinAppends(a: seq<string>, b: seq<string>)
    ensures Join(a + b) == Join(a) + Join(b)
  {
    if b == [] {
      assert a + b == a;
    } else {
      JoinAppends(a, b[..|b| - 1]);
      assert (a + b)[..|a + b| - 1] == a + b[..|b| - 1];
    }
  }

  lemma AreLinesCons(first: string, rest: seq<string>)
    requires OneLine(first) && Terminated(first) && AreLines(rest)
    ensures AreLines([first] + rest) && Join([first] + rest) == first + Join(rest)
  {
    JoinAppends([first], rest);
    assert Join([first]) == first;
    forall i | 0 <= i < |rest| + 1
      ensures OneLine(([first] + rest)[i]) && (i < |rest| ==> Terminated(([first] + rest)[i]))
    {
      if i > 0 {
        assert ([first] + rest)[i] == rest[i - 1];
      }
    }
  }

  lemma JoinPush(a: seq<string>, x: string)
    ensures Join(a + [x]) == Join(a) + x
  {
    assert (a + [x])[..|a|] == a;
  }

  lemma {:induction false} LinesOfSource(s: string)
    ensures AreLines(Lines(s)) && Join(Lines(s)) == s
  {
    if s != "" {
      var n := Find(s, LineFeed);
      if n < |s| {
        var first, rest := s[..n + 1], s[n + 1..];
        assert first + rest == s;
        FirstLine(s, n);
        LinesOfSource(rest);
        AreLinesCons(first, Lines(rest));
      } else {
        OnlyLine(s);
        JoinPush([], s);
        assert [] + [s] == [s];
      }
    }
  }

  lemma FirstLine(s: string, n: nat)
    requires n == Find(s, LineFeed) < |s|
    ensures OneLine(s[..n + 1]) && Terminated(s[..n + 1])
  {
    assert LineFeed(s[n]);
    var first := s[..n + 1];
    forall k | 0 <= k < n ensures first[k] != '\n' {
      assert !LineFeed(s[k]);
    }
  }

  lemma OnlyLine(s: string)
    requires s != "" && Find(s, LineFeed) == |s|
    ensures OneLine(s) && Lines(s) == [s] && AreLines([s])
  {
    assert forall k | 0 <= k < |s| :: !LineFeed(s[k]);
  }

  lemma LinesCons(first: string, rest: string)
    requires OneLine(first) && Terminated(first)
    ensures Lines(first + rest) == [first] + Lines(rest)
  {
    var s := first + rest;
    var n := Find(s, LineFeed);
    assert LineFeed(s[|first| - 1]) && forall k | 0 <= k < |first| - 1 :: s[k] == first[k] && !LineFeed(s[k]);
    assert n == |first| - 1;
    assert s[..n + 1] == first && s[n + 1..] == rest;
  }

  lemma {:induction false} LinesOfJoin(lines: seq<string>)
    requires AreLines(lines)
    ensures Lines(Join(lines)) == lines
  {
    if lines != [] {
      var first, rest := lines[0], lines[1..];
      JoinAppends([first], rest);
      assert [first] + rest == lines && Join([first]) == first;
      if rest != [] || Terminated(first) {
        LinesCons(first, Join(rest));
        LinesOfJoin(rest);
      } else {
        assert lines == [first];
        assert forall k | 0 <= k < |first| :: !LineFeed(first[k]);
        assert Find(first, LineFeed) == |first|;
      }
    }
  }

  /** A CR LF pair never straddles two lines. */
  lemma {:induction false} CrLfEndsALine(lines: seq<string>)
    requires AreLines(lines)
    ensures HasCrLf(Join(lines)) <==> exists i | 0 <= i < |lines| :: EndsCrLf(lines[i])
  {
    if lines != [] {
      var front, last := lines[..|lines| - 1], lines[|lines| - 1];
      CrLfEndsALine(front);
      var a, s := Join(front), Join(lines);
      assert a == "" || a[|a| - 1] == '\n' by {
        if front != [] {
          assert Terminated(front[|front| - 1]);
        }
      }
      if HasCrLf(s) {
        var i :| 0 <= i < |s| - 1 && s[i] == '\r' && s[i + 1] == '\n';
        if i + 1 < |a| {
          assert a[i] == '\r' && a[i + 1] == '\n';
          var k :| 0 <= k < |front| && EndsCrLf(front[k]);
          assert EndsCrLf(lines[k]);
        } else {
          assert i >= |a|;
          assert last[i - |a|] == '\r' && last[i + 1 - |a|] == '\n';
          assert EndsCrLf(lines[|lines| - 1]);
        }
      }
      if k :| 0 <= k < |lines| && EndsCrLf(lines[k]) {
        if k < |front| {
          assert EndsCrLf(front[k]);
          var i :| 0 <= i < |a| - 1 && a[i] == '\r' && a[i + 1] == '\n';
          assert s[i] == '\r' && s[i + 1] == '\n';
        } else {
          assert s[|s| - 2] == '\r' && s[|s| - 1] == '\n';
        }
      }
    }
  }

  // ---- escaping ----

  function ReplaceChar(s: string, c: char, to: string): string {
    if s == "" then "" else (if s[0] == c then to else [s[0]]) + ReplaceChar(s[1..], c, to)
  }

  predicate Escaped(c: char, style: Style) {
    c == '\\' || (if style.SingleQuoted? then c == '\'' else c == '=' || c == ':')
  }

  /** The text after the equals sign, by successive replacements as the program makes them. */
  function Encoded(value: string, style: Style): string {
    match style
    case SingleQuoted => "'" + ReplaceChar(ReplaceChar(value, '\\', "\\\\"), '\'', "\\'") + "'"
    case Properties => ReplaceChar(ReplaceChar(ReplaceChar(value, '\\', "\\\\"), '=', "\\="), ':', "\\:")
  }

  /** One pass over the value: a backslash before every character that needs one. */
  function Escape(value: string, style: Style): string {
    if value == "" then ""
    else (if Escaped(value[0], style) then ['\\', value[0]] else [value[0]]) + Escape(value[1..], style)
  }

  lemma Associates(a: string, b: string, c: string)
    ensures a + (b + c) == (a + b) + c
  {
  }

  lemma {:induction false} ReplaceAppends(a: string, b: string, c: char, to: string)
    ensures ReplaceChar(a + b, c, to) == ReplaceChar(a, c, to) + ReplaceChar(b, c, to)
  {
    if a == "" {
      assert a + b == b;
    } else {
      ReplaceAppends(a[1..], b, c, to);
      assert (a + b)[1..] == a[1..] + b;
      Associates(if a[0] == c then to else [a[0]], ReplaceChar(a[1..], c, to), ReplaceChar(b, c, to));
    }
  }

  lemma {:induction false} QuotedIsOnePass(value: string)
    ensures ReplaceChar(ReplaceChar(value, '\\', "\\\\"), '\'', "\\'") == Escape(value, SingleQuoted)
  {
    if value != "" {
      var c, rest := [value[0]], value[1..];
      QuotedIsOnePass(rest);
      assert value == c + rest;
      ReplaceAppends(c, rest, '\\', "\\\\");
      ReplaceAppends(ReplaceChar(c, '\\', "\\\\"), ReplaceChar(rest, '\\', "\\\\"), '\'', "\\'");
    }
  }

  lemma {:induction false} PropertiesIsOnePass(value: string)
    ensures Encoded(value, Properties) == Escape(value, Properties)
  {
    if value != "" {
      var c, rest := [value[0]], value[1..];
      PropertiesIsOnePass(rest);
      assert value == c + rest;
      var one, more := ReplaceChar(c, '\\', "\\\\"), ReplaceChar(rest, '\\', "\\\\");
      ReplaceAppends(c, rest, '\\', "\\\\");
      ReplaceAppends(one, more, '=', "\\=");
      ReplaceAppends(ReplaceChar(one, '=', "\\="), ReplaceChar(more, '=', "\\="), ':', "\\:");
    }
  }

  /** The order of the replacements matters and is the right one: no pass escapes what an earlier one wrote. */
  lemma SuccessiveIsOnePass(value: string, style: Style)
    ensures Encoded(value, style) == if style.SingleQuoted? then "'" + Escape(value, style) + "'" else Escape(value, style)
  {
    if style.SingleQuoted? {
      QuotedIsOnePass(value);
    } else {
      PropertiesIsOnePass(value);
    }
  }

  /** Reading an escaped text up to an unescaped `close`: what was read, and the rest behind `close`. */
  function Unescape(s: string, close: Option<char>): Option<(string, string)> {
    if s == "" then if close.None? then Some(("", "")) else None
    else if close == Some(s[0]) then Some(("", s[1..]))
    else if s[0] == '\\' then
      if |s| == 1 then None
      else match Unescape(s[2..], close) case None => None case Some((read, rest)) => Some(([s[1]] + read, rest))
    else match Unescape(s[1..], close) case None => None case Some((read, rest)) => Some(([s[0]] + read, rest))
  }

  /** What a reader of the format takes the text after the separator to mean. */
  function Decoded(text: string, style: Style): Option<string> {
    match style
    case Properties => (match Unescape(text, None) case None => None case Some((read, _)) => Some(read))
    case SingleQuoted =>
      if text == "" || text[0] != '\'' then None
      else match Unescape(text[1..], Some('\'')) case None => None case Some((read, rest)) => if rest == "" then Some(read) else None
  }

  lemma {:induction false} UnescapeEscape(value: string, style: Style, close: Option<char>, rest: string)
    requires close == if style.SingleQuoted? then Some('\'') else None
    requires if style.SingleQuoted? then rest != "" && rest[0] == '\'' else rest == ""
    ensures Unescape(Escape(value, style) + rest, close) == Some((value, if style.SingleQuoted? then rest[1..] else ""))
  {
    if value == "" {
      assert Escape(value, style) + rest == rest;
    } else {
      UnescapeEscape(value[1..], style, close, rest);
      var head := if Escaped(value[0], style) then ['\\', value[0]] else [value[0]];
      var tail := Escape(value[1..], style) + rest;
      Associates(head, Escape(value[1..], style), rest);
      assert (head + tail)[|head|..] == tail;
      assert [value[0]] + value[1..] == value;
    }
  }

  /** The closing quote is never met early and every value comes back. */
  lemma EncodedDecodes(value: string, style: Style)
    ensures Decoded(Encoded(value, style), style) == Some(value)
  {
    SuccessiveIsOnePass(value, style);
    if style.SingleQuoted? {
      UnescapeEscape(value, style, Some('\''), "'");
      assert Encoded(value, style)[1..] == Escape(value, style) + "'";
    } else {
      UnescapeEscape(value, style, None, "");
      assert Escape(value, style) + "" == Escape(value, style);
    }
  }

  // ---- one line ----

  const EXPORT := "export "

  predicate ValidKey(key: string) {
    key != "" && forall c | c in key :: AsciiAlnum(c) || c == '_' || c == '.' || c == '-'
  }

  predicate Forbidden(value: string) { exists c | c in value :: c == '\r' || c == '\n' || c == '\0' }

  predicate Exported(line: string) { EXPORT <= TrimStart(Body(line)) }

  function StripExport(s: string): string { if EXPORT <= s then s[|EXPORT|..] else s }

  /** The key a line sets, and the text behind its separator. */
  function Setting(line: string, style: Style): Option<(string, string)> { SettingOf(TrimStart(Body(line)), style) }

  function SettingOf(trimmed: string, style: Style): Option<(string, string)> {
    if style.Properties? then
      var n := Find(trimmed, Separator);
      if (trimmed != "" && (trimmed[0] == '#' || trimmed[0] == '!')) || n == |trimmed| then None
      else Some((trimmed[..n], trimmed[n + 1..]))
    else
      var stripped := StripExport(trimmed);
      var n := Find(stripped, EqualsSign);
      if n == |stripped| then None else Some((Trim(stripped[..n]), stripped[n + 1..]))
  }

  predicate Sets(line: string, key: string, style: Style) {
    Setting(line, style).Some? && Setting(line, style).value.0 == key
  }

  function Assignment(key: string, text: string): string { key + "=" + text }

  /** The line written over one that set the key. */
  function Rewritten(line: string, key: string, text: string, newline: string): string {
    (if Exported(line) then EXPORT else "") + Assignment(key, text) + (if Terminated(line) then newline else "")
  }

  /** A key, an equals sign and a text, possibly behind `export `, and any line ends behind. */
  lemma {:induction false} BodyOf(body: string, ends: string)
    requires forall c | c in ends :: LineEnd(c)
    ensures Body(body + ends) == Body(body)
  {
    if ends == "" {
      assert body + ends == body;
    } else {
      var last := |ends| - 1;
      assert ends[last] in ends;
      assert (body + ends)[..|body + ends| - 1] == body + ends[..last];
      BodyOf(body, ends[..last]);
    }
  }

  /** A line's terminator says nothing about its setting. */
  lemma TerminatorIgnored(line: string, ends: string, style: Style)
    requires forall c | c in ends :: LineEnd(c)
    ensures Setting(line + ends, style) == Setting(line, style) && Exported(line + ends) == Exported(line)
  {
    BodyOf(line, ends);
  }

  lemma {:induction false} FoundAt(s: string, stop: char -> bool, n: nat)
    requires n < |s| && stop(s[n]) && forall i | 0 <= i < n :: !stop(s[i])
    ensures Find(s, stop) == n
  {
    var m := Find(s, stop);
    assert m < |s|;
  }

  predicate PlainText(text: string) { forall c | c in text :: !LineEnd(c) }

  lemma KeyFound(key: string, text: string)
    requires ValidKey(key) && PlainText(text)
    ensures var s := Assignment(key, text);
            Find(s, EqualsSign) == |key| && Find(s, Separator) == |key| && s[..|key|] == key && s[|key| + 1..] == text
  {
    var s := Assignment(key, text);
    assert s[|key|] == '=' && forall i | 0 <= i < |key| :: s[i] == key[i] && key[i] in key;
    FoundAt(s, EqualsSign, |key|);
    FoundAt(s, Separator, |key|);
  }

  lemma NotExported(key: string, text: string)
    requires ValidKey(key)
    ensures !(EXPORT <= Assignment(key, text))
  {
    var s, i := Assignment(key, text), if |key| <= 6 then |key| else 6;
    assert s[i] == if i == |key| then '=' else key[i];
    assert i < |key| ==> key[i] in key;
    assert s[i] != EXPORT[i];
  }

  lemma NotTrimmed(key: string, text: string)
    requires ValidKey(key) && PlainText(text)
    ensures var s := Assignment(key, text);
            Body(s) == s && TrimStart(s) == s && !LineEnd(s[|s| - 1]) && s[0] != '#' && s[0] != '!' && Trim(key) == key
  {
    var s := Assignment(key, text);
    assert key[0] in key && key[|key| - 1] in key && s[0] == key[0];
    if text != "" {
      assert s[|s| - 1] == text[|text| - 1] && text[|text| - 1] in text;
    }
  }

  /** `key=text`: where the key ends, and that nothing is trimmed off. */
  lemma PlainSetting(key: string, text: string, style: Style)
    requires ValidKey(key) && PlainText(text)
    ensures var s := Assignment(key, text);
            SettingOf(s, style) == Some((key, text)) && !(EXPORT <= s) && Body(s) == s && TrimStart(s) == s &&
            !LineEnd(s[|s| - 1])
  {
    KeyFound(key, text);
    NotExported(key, text);
    NotTrimmed(key, text);
  }

  lemma ExportPrefix(setting: string)
    ensures var s := EXPORT + setting;
            EXPORT <= s && StripExport(s) == setting && Find(s, Separator) == 6 && s[..6] == "export" && s[7..] == setting
  {
    var s := EXPORT + setting;
    assert s[6] == ' ' && forall i | 0 <= i < 6 :: s[i] == EXPORT[i];
    FoundAt(s, Separator, 6);
    assert s[7..] == setting && s[..6] == "export" && s[..7] == EXPORT;
  }

  lemma ExportSetting(key: string, text: string, style: Style)
    requires ValidKey(key) && PlainText(text)
    ensures SettingOf(EXPORT + Assignment(key, text), style) ==
            Some(if style.Properties? then ("export", Assignment(key, text)) else (key, text))
  {
    ExportPrefix(Assignment(key, text));
    PlainSetting(key, text, style);
  }

  lemma ExportNotTrimmed(setting: string)
    requires setting != "" && !LineEnd(setting[|setting| - 1])
    ensures var s := EXPORT + setting; Body(s) == s && TrimStart(s) == s
  {
    var s := EXPORT + setting;
    assert s[|s| - 1] == setting[|setting| - 1];
  }

  /** What a written line sets: always the key with this text, except behind `export ` in a properties file. */
  lemma WrittenSets(exported: bool, key: string, text: string, ends: string, style: Style)
    requires ValidKey(key) && PlainText(text) && (forall c | c in ends :: LineEnd(c))
    ensures var line := (if exported then EXPORT else "") + Assignment(key, text) + ends;
            (Exported(line) <==> exported) &&
            Setting(line, style) ==
              Some(if style.Properties? && exported then ("export", Assignment(key, text)) else (key, text))
  {
    var body := (if exported then EXPORT else "") + Assignment(key, text);
    BodyOf(body, ends);
    PlainSetting(key, text, style);
    if exported {
      ExportSetting(key, text, style);
      ExportPrefix(Assignment(key, text));
      ExportNotTrimmed(Assignment(key, text));
    } else {
      assert body == Assignment(key, text);
    }
  }

  // ---- the whole file ----

  predicate Present(lines: seq<string>, key: string, style: Style) {
    exists i | 0 <= i < |lines| :: Sets(lines[i], key, style)
  }

  predicate Duplicate(lines: seq<string>, key: string, style: Style) {
    exists i, j | 0 <= i < j < |lines| :: Sets(lines[i], key, style) && Sets(lines[j], key, style)
  }

  function OverLine(line: string, key: string, text: string, style: Style, newline: string): string {
    if Sets(line, key, style) then Rewritten(line, key, text, newline) else line
  }

  /** Every line as it was, except one that sets the key. */
  function Over(lines: seq<string>, key: string, text: string, style: Style, newline: string): (r: seq<string>)
    ensures |r| == |lines| && forall i | 0 <= i < |lines| :: r[i] == OverLine(lines[i], key, text, style, newline)
  {
    seq(|lines|, i requires 0 <= i < |lines| => OverLine(lines[i], key, text, style, newline))
  }

  /** The last line terminated, if there is one. */
  function Closed(lines: seq<string>, newline: string): seq<string> {
    if lines == [] || Terminated(lines[|lines| - 1]) then lines
    else lines[..|lines| - 1] + [lines[|lines| - 1] + newline]
  }

  function NewLines(lines: seq<string>, key: string, text: string, style: Style, newline: string): seq<string> {
    if Present(lines, key, style) then Over(lines, key, text, style, newline)
    else Closed(lines, newline) + [Assignment(key, text) + newline]
  }

  /** The file after setting `key` to `value`. */
  function Upsert(source: string, key: string, value: string, style: Style): Result<string, TargetError> {
    if Forbidden(value) || Duplicate(Lines(source), key, style) then Err(TargetFailed)
    else Ok(Join(NewLines(Lines(source), key, Encoded(value, style), style, Newline(source))))
  }

  method Push(out: string, prefix: string, key: string, text: string, ends: string) returns (r: string)
    ensures r == out + (prefix + Assignment(key, text) + ends)
    ensures prefix == "" ==> r == out + (Assignment(key, text) + ends)
  {
    r := out + prefix;
    r := r + key;
    r := r + "=";
    r := r + text;
    r := r + ends;
  }

  /** The loop of `render_key_value`: an error as soon as a second line sets the key. */
  method RewriteLines(lines: seq<string>, key: string, encoded: string, style: Style, newline: string)
    returns (r: Result<string, TargetError>, found: bool)
    ensures found <==> Present(lines, key, style)
    ensures r == if Duplicate(lines, key, style) then Err(TargetFailed) else Ok(Join(Over(lines, key, encoded, style, newline)))
  {
    found := false;
    var out := "";
    for i := 0 to |lines|
      invariant out == Join(Over(lines[..i], key, encoded, style, newline))
      invariant found <==> Present(lines[..i], key, style)
      invariant !Duplicate(lines[..i], key, style)
    {
      var line := lines[i];
      OverOneMore(lines, i, key, encoded, style, newline);
      PresentOneMore(lines, i, key, style);
      DuplicateOneMore(lines, i, key, style);
      if Sets(line, key, style) {
        if found {
          return Err(TargetFailed), true;
        }
        found := true;
        out := Push(out, if Exported(line) then EXPORT else "", key, encoded, if Terminated(line) then newline else "");
      } else {
        out := out + line;
      }
    }
    assert lines[..|lines|] == lines;
    r := Ok(out);
  }

  /** `render_key_value`; a file or a value that is not UTF-8 is `None` here. */
  method RenderKeyValue(prior: Option<string>, key: string, payload: Option<string>, style: Style)
    returns (r: Result<string, TargetError>)
    ensures r == if prior.None? || payload.None? then Err(TargetFailed) else Upsert(prior.value, key, payload.value, style)
  {
    if prior.None? || payload.None? {
      return Err(TargetFailed);
    }
    var source, value := prior.value, payload.value;
    if '\r' in value || '\n' in value || '\0' in value {
      return Err(TargetFailed);
    }
    var encoded := Encoded(value, style);
    var newline := if HasCrLf(source) then "\r\n" else "\n";
    var found;
    r, found := RewriteLines(Lines(source), key, encoded, style, newline);
    if r.Ok? && !found {
      Unchanged(source, key, encoded, style, newline);
      AddedAtTheEnd(source, key, encoded, style, newline);
      var out := AppendSetting(r.value, key, encoded, newline);
      r := Ok(out);
    }
  }

  method AppendSetting(source: string, key: string, text: string, newline: string) returns (out: string)
    ensures out == Ended(source, newline) + (Assignment(key, text) + newline)
  {
    out := source;
    if out != "" && out[|out| - 1] != '\n' {
      out := out + newline;
    }
    out := Push(out, "", key, text, newline);
  }

  lemma Unchanged(source: string, key: string, text: string, style: Style, newline: string)
    requires !Present(Lines(source), key, style)
    ensures Join(Over(Lines(source), key, text, style, newline)) == source
  {
    LinesOfSource(source);
    OverNothing(Lines(source), key, text, style, newline);
  }

  function Ended(source: string, newline: string): string {
    if source == "" || source[|source| - 1] == '\n' then source else source + newline
  }

  lemma AddedAtTheEnd(source: string, key: string, text: string, style: Style, newline: string)
    requires !Present(Lines(source), key, style)
    ensures Join(NewLines(Lines(source), key, text, style, newline)) ==
            Ended(source, newline) + (Assignment(key, text) + newline)
  {
    var lines := Lines(source);
    var front, last := Closed(lines, newline), Assignment(key, text) + newline;
    assert NewLines(lines, key, text, style, newline) == front + [last];
    assert Join(front) == Ended(source, newline) by {
      LinesOfSource(source);
      JoinClosed(lines, newline);
    }
    JoinPush(front, last);
  }

  lemma OverNothing(lines: seq<string>, key: string, text: string, style: Style, newline: string)
    requires !Present(lines, key, style)
    ensures Over(lines, key, text, style, newline) == lines
  {
  }

  lemma OverOneMore(lines: seq<string>, n: nat, key: string, text: string, style: Style, newline: string)
    requires n < |lines|
    ensures Join(Over(lines[..n + 1], key, text, style, newline)) ==
            Join(Over(lines[..n], key, text, style, newline)) + OverLine(lines[n], key, text, style, newline)
  {
    var more, less := Over(lines[..n + 1], key, text, style, newline), Over(lines[..n], key, text, style, newline);
    assert more[..n] == less;
  }

  lemma PresentOneMore(lines: seq<string>, n: nat, key: string, style: Style)
    requires n < |lines|
    ensures Present(lines[..n + 1], key, style) <==> Present(lines[..n], key, style) || Sets(lines[n], key, style)
  {
    var more, less := lines[..n + 1], lines[..n];
    assert more[n] == lines[n] && forall i | 0 <= i < n :: more[i] == less[i];
  }

  lemma DuplicateOneMore(lines: seq<string>, n: nat, key: string, style: Style)
    requires n < |lines| && !Duplicate(lines[..n], key, style)
    ensures Duplicate(lines[..n + 1], key, style) <==> Present(lines[..n], key, style) && Sets(lines[n], key, style)
    ensures Duplicate(lines[..n + 1], key, style) ==> Duplicate(lines, key, style) && Present(lines, key, style)
  {
    var more, less := lines[..n + 1], lines[..n];
    if Present(less, key, style) && Sets(lines[n], key, style) {
      var i :| 0 <= i < n && Sets(less[i], key, style);
      assert Sets(more[i], key, style) && Sets(more[n], key, style);
    }
    if i, j :| 0 <= i < j < n + 1 && Sets(more[i], key, style) && Sets(more[j], key, style) {
      assert Sets(lines[i], key, style) && Sets(lines[j], key, style);
      assert forall k | 0 <= k < n :: less[k] == lines[k];
      assert j == n && Sets(less[i], key, style);
    }
  }

  lemma JoinClosed(lines: seq<string>, newline: string)
    requires AreLines(lines)
    ensures Join(Closed(lines, newline)) == Ended(Join(lines), newline)
  {
    if lines != [] {
      var front, last := lines[..|lines| - 1], lines[|lines| - 1];
      assert lines == front + [last] && last != "";
      JoinClosedLast(front, last, newline);
    }
  }

  lemma JoinClosedLast(front: seq<string>, last: string, newline: string)
    requires last != ""
    ensures var s := Join(front + [last]);
            s != "" && s[|s| - 1] == last[|last| - 1] && Join(front + [last + newline]) == s + newline
  {
    JoinPush(front, last);
    JoinPush(front, last + newline);
    assert Join(front) + (last + newline) == (Join(front) + last) + newline;
  }

  // ---- what a write means ----

  lemma {:induction false} ReplaceKeepsPlain(s: string, c: char, to: string)
    requires PlainText(s) && PlainText(to)
    ensures PlainText(ReplaceChar(s, c, to))
  {
    if s != "" {
      assert s[0] in s && forall d | d in s[1..] :: d in s;
      ReplaceKeepsPlain(s[1..], c, to);
    }
  }

  lemma EncodedIsPlain(value: string, style: Style)
    requires !Forbidden(value)
    ensures PlainText(Encoded(value, style))
  {
    var one := ReplaceChar(value, '\\', "\\\\");
    ReplaceKeepsPlain(value, '\\', "\\\\");
    ReplaceKeepsPlain(one, '\'', "\\'");
    ReplaceKeepsPlain(one, '=', "\\=");
    ReplaceKeepsPlain(ReplaceChar(one, '=', "\\="), ':', "\\:");
  }

  /** Only a key named `export` is found behind `export ` in a properties file. */
  lemma ExportedPropertiesKey(line: string, key: string)
    requires Sets(line, key, Properties) && Exported(line)
    ensures key == "export"
  {
    var trimmed := TrimStart(Body(line));
    assert forall i | 0 <= i < 7 :: trimmed[i] == EXPORT[i];
    FoundAt(trimmed, Separator, 6);
    assert trimmed[..6] == "export";
  }

  /** A written line's shape: one line, terminated as asked, and no CR but the one of its terminator. */
  lemma WrittenShape(exported: bool, key: string, text: string, ends: string)
    requires ValidKey(key) && PlainText(text) && (ends == "" || ends == "\n" || ends == "\r\n")
    ensures var line := (if exported then EXPORT else "") + Assignment(key, text) + ends;
            OneLine(line) && (Terminated(line) <==> ends != "") && (EndsCrLf(line) <==> ends == "\r\n")
  {
    var body := (if exported then EXPORT else "") + Assignment(key, text);
    PlainSetting(key, text, SingleQuoted);
    assert body[|body| - 1] == Assignment(key, text)[|Assignment(key, text)| - 1];
    forall k | 0 <= k < |body| ensures !LineEnd(body[k]) {
      PlainCharacters(exported, key, text, k);
    }
  }

  lemma PlainCharacters(exported: bool, key: string, text: string, k: nat)
    requires ValidKey(key) && PlainText(text)
    requires k < |(if exported then EXPORT else "") + Assignment(key, text)|
    ensures !LineEnd(((if exported then EXPORT else "") + Assignment(key, text))[k])
  {
    var prefix := if exported then EXPORT else "";
    var i := k - |prefix|;
    if 0 <= i < |key| {
      assert (prefix + Assignment(key, text))[k] == key[i] && key[i] in key;
    } else if i > |key| {
      assert (prefix + Assignment(key, text))[k] == text[i - |key| - 1] && text[i - |key| - 1] in text;
    }
  }

  predicate IsNewline(newline: string) { newline == "\n" || newline == "\r\n" }

  /** The line written over one that set the key sets it again, and is found, exported and terminated as that was. */
  lemma RewrittenSets(line: string, key: string, text: string, style: Style, newline: string)
    requires ValidKey(key) && PlainText(text) && IsNewline(newline) && Sets(line, key, style)
    ensures var new' := Rewritten(line, key, text, newline);
            && Sets(new', key, style) && (Exported(new') <==> Exported(line)) && (Terminated(new') <==> Terminated(line))
            && OneLine(new') && (EndsCrLf(new') <==> Terminated(line) && newline == "\r\n")
            && Setting(new', style).value.1 == if style.Properties? && Exported(line) then Assignment(key, text) else text
  {
    var ends := if Terminated(line) then newline else "";
    WrittenSets(Exported(line), key, text, ends, style);
    WrittenShape(Exported(line), key, text, ends);
    if style.Properties? && Exported(line) {
      ExportedPropertiesKey(line, key);
    }
  }

  /** The line added for an absent key. */
  lemma AddedSets(key: string, text: string, style: Style, newline: string)
    requires ValidKey(key) && PlainText(text) && IsNewline(newline)
    ensures var line := Assignment(key, text) + newline;
            && Setting(line, style) == Some((key, text)) && !Exported(line) && Terminated(line)
            && OneLine(line) && (EndsCrLf(line) <==> newline == "\r\n")
  {
    WrittenSets(false, key, text, newline, style);
    WrittenShape(false, key, text, newline);
    assert "" + Assignment(key, text) + newline == Assignment(key, text) + newline;
  }

  lemma ClosedAreLines(lines: seq<string>, newline: string)
    requires AreLines(lines) && IsNewline(newline)
    ensures AreLines(Closed(lines, newline)) && |Closed(lines, newline)| == |lines|
    ensures forall i | 0 <= i < |lines| :: Terminated(Closed(lines, newline)[i])
  {
    if lines != [] && !Terminated(lines[|lines| - 1]) {
      var last := lines[|lines| - 1];
      assert OneLine(last) && last[|last| - 1] != '\n';
      assert OneLine(last + newline) && Terminated(last + newline);
    }
  }

  lemma NewLinesAreLines(lines: seq<string>, key: string, text: string, style: Style, newline: string)
    requires AreLines(lines) && ValidKey(key) && PlainText(text) && IsNewline(newline)
    ensures AreLines(NewLines(lines, key, text, style, newline))
  {
    if Present(lines, key, style) {
      forall i | 0 <= i < |lines| && Sets(lines[i], key, style)
        ensures OneLine(Rewritten(lines[i], key, text, newline))
        ensures Terminated(Rewritten(lines[i], key, text, newline)) <==> Terminated(lines[i])
      {
        RewrittenSets(lines[i], key, text, style, newline);
      }
    } else {
      ClosedAreLines(lines, newline);
      AddedSets(key, text, style, newline);
    }
  }

  /** The lines of the new file are the new lines: nothing written is ever split, and nothing runs into it. */
  lemma LinesWritten(source: string, key: string, value: string, style: Style)
    requires ValidKey(key) && Upsert(source, key, value, style).Ok?
    ensures Lines(Upsert(source, key, value, style).value) ==
            NewLines(Lines(source), key, Encoded(value, style), style, Newline(source))
    ensures PlainText(Encoded(value, style)) && AreLines(Lines(source))
  {
    EncodedIsPlain(value, style);
    LinesOfSource(source);
    NewLinesAreLines(Lines(source), key, Encoded(value, style), style, Newline(source));
    LinesOfJoin(NewLines(Lines(source), key, Encoded(value, style), style, Newline(source)));
  }

  /** The `export` case: a properties line that begins with `export `, found for the key `export`. */
  predicate ExportCase(source: string, key: string, style: Style) {
    style.Properties? && exists i | 0 <= i < |Lines(source)| :: Sets(Lines(source)[i], key, style) && Exported(Lines(source)[i])
  }

  lemma {:induction false} PlainPrefixDecodes(prefix: string, text: string)
    requires (forall c | c in prefix :: c != '\\') && Unescape(text, None).Some?
    ensures Unescape(prefix + text, None) == Some((prefix + Unescape(text, None).value.0, Unescape(text, None).value.1))
  {
    if prefix == "" {
      assert prefix + text == text;
      assert "" + Unescape(text, None).value.0 == Unescape(text, None).value.0;
    } else {
      assert (prefix + text)[1..] == prefix[1..] + text;
      assert prefix[0] in prefix && forall c | c in prefix[1..] :: c in prefix;
      PlainPrefixDecodes(prefix[1..], text);
      Associates([prefix[0]], prefix[1..], Unescape(text, None).value.0);
      assert [prefix[0]] + prefix[1..] == prefix;
    }
  }

  /** Behind the `export ` of a properties line the value read back has the key in front of it. */
  lemma ExportCaseMisreads(value: string)
    ensures Decoded(Assignment("export", Encoded(value, Properties)), Properties) == Some("export=" + value)
  {
    EncodedDecodes(value, Properties);
    PlainPrefixDecodes("export=", Encoded(value, Properties));
    assert Assignment("export", Encoded(value, Properties)) == "export=" + Encoded(value, Properties);
  }

  /** One line, the one at `at`, sets the key. */
  ghost predicate OnlyAt(lines: seq<string>, at: nat, key: string, style: Style) {
    at < |lines| && forall i | 0 <= i < |lines| :: Sets(lines[i], key, style) <==> i == at
  }

  predicate SameBut(now: seq<string>, was: seq<string>, at: nat) {
    |now| == |was| && forall i | 0 <= i < |was| && i != at :: now[i] == was[i]
  }

  function ValueAt(lines: seq<string>, at: nat, style: Style): Option<string>
    requires at < |lines| && Setting(lines[at], style).Some?
  {
    Decoded(Setting(lines[at], style).value.1, style)
  }

  /**
   * After a write exactly one line sets the key and every other line is the one it was, in its place; only an
   * unterminated last line gains a terminator when a line is added behind it. The value reads back unless the
   * `export` case applies, and then it does not.
   */
  lemma WritesOneLine(source: string, key: string, value: string, style: Style) returns (at: nat)
    requires ValidKey(key) && Upsert(source, key, value, style).Ok?
    ensures var was, now := Lines(source), Lines(Upsert(source, key, value, style).value);
            && OnlyAt(now, at, key, style)
            && (if Present(was, key, style) then SameBut(now, was, at)
                else |now| == at + 1 && now[..at] == Closed(was, Newline(source)))
            && (ValueAt(now, at, style) == Some(value) <==> !ExportCase(source, key, style))
  {
    LinesWritten(source, key, value, style);
    if Present(Lines(source), key, style) {
      at := WrittenOver(source, key, value, style);
    } else {
      at := |Lines(source)|;
      WrittenBehind(source, key, value, style);
    }
  }

  lemma WrittenOver(source: string, key: string, value: string, style: Style) returns (at: nat)
    requires ValidKey(key) && PlainText(Encoded(value, style))
    requires Present(Lines(source), key, style) && !Duplicate(Lines(source), key, style)
    ensures var now := Over(Lines(source), key, Encoded(value, style), style, Newline(source));
            && OnlyAt(now, at, key, style) && SameBut(now, Lines(source), at)
            && (ValueAt(now, at, style) == Some(value) <==> !ExportCase(source, key, style))
  {
    var was, text, newline := Lines(source), Encoded(value, style), Newline(source);
    at :| 0 <= at < |was| && Sets(was[at], key, style);
    RewrittenSets(was[at], key, text, style, newline);
    assert forall i | 0 <= i < |was| && Sets(was[i], key, style) :: i == at;
    if style.Properties? && Exported(was[at]) {
      ExportedPropertiesKey(was[at], key);
      ExportCaseMisreads(value);
      assert |"export=" + value| > |value|;
    } else {
      EncodedDecodes(value, style);
    }
  }

  lemma WrittenBehind(source: string, key: string, value: string, style: Style)
    requires ValidKey(key) && PlainText(Encoded(value, style))
    requires !Present(Lines(source), key, style)
    ensures var was := Lines(source);
            var now := NewLines(was, key, Encoded(value, style), style, Newline(source));
            && OnlyAt(now, |was|, key, style) && now[..|was|] == Closed(was, Newline(source))
            && ValueAt(now, |was|, style) == Some(value)
  {
    ClosedSets(Lines(source), Newline(source), style);
    AddedSets(key, Encoded(value, style), style, Newline(source));
    EncodedDecodes(value, style);
  }

  lemma ClosedSets(lines: seq<string>, newline: string, style: Style)
    requires IsNewline(newline)
    ensures |Closed(lines, newline)| == |lines|
    ensures forall i | 0 <= i < |lines| :: SameSetting(Closed(lines, newline)[i], lines[i], style)
  {
    forall i | 0 <= i < |lines| ensures SameSetting(Closed(lines, newline)[i], lines[i], style) {
      if i == |lines| - 1 {
        TerminatorIgnored(lines[i], newline, style);
      }
    }
  }

  predicate SameSetting(line: string, other: string, style: Style) {
    Setting(line, style) == Setting(other, style) && Exported(line) == Exported(other)
  }

  /** Every other key reads as before, in particular one set in an unterminated last line. */
  lemma OtherKeysRead(source: string, key: string, value: string, style: Style, other: string, i: nat)
    requires ValidKey(key) && Upsert(source, key, value, style).Ok? && other != key
    requires i < |Lines(Upsert(source, key, value, style).value)|
    ensures var was, now := Lines(source), Lines(Upsert(source, key, value, style).value);
            && (Sets(now[i], other, style) <==> i < |was| && Sets(was[i], other, style))
            && (Sets(now[i], other, style) ==> Setting(now[i], style) == Setting(was[i], style))
  {
    LinesWritten(source, key, value, style);
    var was, text, newline := Lines(source), Encoded(value, style), Newline(source);
    if Present(was, key, style) {
      if Sets(was[i], key, style) {
        RewrittenSets(was[i], key, text, style, newline);
      }
    } else {
      ClosedSets(was, newline, style);
      AddedSets(key, text, style, newline);
    }
  }

  /** A line is added behind an unterminated one that ends in a bare CR, in a file without CR LF. */
  predicate BareCr(source: string, key: string, style: Style) {
    !Present(Lines(source), key, style) && EndsInCr(source) && !HasCrLf(source)
  }

  lemma NewlineOver(lines: seq<string>, key: string, text: string, style: Style, newline: string)
    requires AreLines(lines) && ValidKey(key) && PlainText(text)
    requires newline == Newline(Join(lines)) && Present(lines, key, style)
    ensures HasCrLf(Join(Over(lines, key, text, style, newline))) == HasCrLf(Join(lines))
  {
    var now := Over(lines, key, text, style, newline);
    NewLinesAreLines(lines, key, text, style, newline);
    CrLfEndsALine(lines);
    CrLfEndsALine(now);
    forall i | 0 <= i < |lines| ensures EndsCrLf(lines[i]) ==> EndsCrLf(now[i])
      ensures EndsCrLf(now[i]) ==> EndsCrLf(lines[i]) || newline == "\r\n"
    {
      if Sets(lines[i], key, style) {
        RewrittenSets(lines[i], key, text, style, newline);
      }
    }
  }

  lemma CrLfBehind(line: string)
    requires OneLine(line)
    ensures line[|line| - 1] == '\r' ==> !Terminated(line)
    ensures EndsCrLf(line + "\n") <==> line[|line| - 1] == '\r'
    ensures EndsCrLf(line + "\r\n")
  {
  }

  lemma NewlineBehind(lines: seq<string>, key: string, text: string, style: Style, newline: string)
    requires AreLines(lines) && ValidKey(key) && PlainText(text)
    requires newline == Newline(Join(lines)) && !Present(lines, key, style)
    ensures HasCrLf(Join(NewLines(lines, key, text, style, newline))) <==>
            HasCrLf(Join(lines)) || (lines != [] && EndsInCr(lines[|lines| - 1]))
  {
    var now := NewLines(lines, key, text, style, newline);
    NewLinesAreLines(lines, key, text, style, newline);
    AddedSets(key, text, style, newline);
    CrLfEndsALine(now);
    assert EndsCrLf(now[|lines|]) <==> newline == "\r\n";
    if newline == "\n" {
      CrLfEndsALine(lines);
      NoCrLfBehind(lines, now);
    }
  }

  predicate EndsInCr(s: string) { s != "" && s[|s| - 1] == '\r' }

  lemma NoCrLfBehind(lines: seq<string>, now: seq<string>)
    requires AreLines(lines) && forall i | 0 <= i < |lines| :: !EndsCrLf(lines[i])
    requires |now| == |lines| + 1 && now[..|lines|] == Closed(lines, "\n") && !EndsCrLf(now[|lines|])
    ensures (exists i | 0 <= i < |now| :: EndsCrLf(now[i])) <==> lines != [] && EndsInCr(lines[|lines| - 1])
  {
    var closed, last := now[..|lines|], |lines| - 1;
    if lines != [] {
      LastCrLf(lines);
      assert now[last] == closed[last];
    }
    forall i | 0 <= i < last ensures !EndsCrLf(now[i]) {
      assert now[i] == closed[i] == lines[i];
    }
  }

  lemma LastCrLf(lines: seq<string>)
    requires lines != [] && OneLine(lines[|lines| - 1]) && !EndsCrLf(lines[|lines| - 1])
    ensures EndsCrLf(Closed(lines, "\n")[|lines| - 1]) <==> EndsInCr(lines[|lines| - 1])
  {
    CrLfBehind(lines[|lines| - 1]);
  }

  lemma EndOfSource(source: string)
    ensures var lines := Lines(source); (lines != [] && EndsInCr(lines[|lines| - 1])) <==> EndsInCr(source)
  {
    LinesOfSource(source);
    var lines := Lines(source);
    if lines != [] {
      var front, last := lines[..|lines| - 1], lines[|lines| - 1];
      assert front + [last] == lines && OneLine(last);
      JoinPush(front, last);
      assert source[|source| - 1] == last[|last| - 1];
    }
  }

  /** The bare CR case is exactly when a write changes how the next one ends its lines. */
  lemma NewlineKept(source: string, key: string, value: string, style: Style)
    requires ValidKey(key) && Upsert(source, key, value, style).Ok?
    ensures Newline(Upsert(source, key, value, style).value) == Newline(source) <==> !BareCr(source, key, style)
  {
    EncodedIsPlain(value, style);
    LinesOfSource(source);
    var lines, text, newline := Lines(source), Encoded(value, style), Newline(source);
    if Present(lines, key, style) {
      NewlineOver(lines, key, text, style, newline);
    } else {
      NewlineBehind(lines, key, text, style, newline);
      EndOfSource(source);
    }
  }

  lemma OverTwicePresent(lines: seq<string>, key: string, first: string, second: string, style: Style, newline: string)
    requires ValidKey(key) && PlainText(first) && PlainText(second) && IsNewline(newline)
    ensures Over(Over(lines, key, first, style, newline), key, second, style, newline) ==
            Over(lines, key, second, style, newline)
  {
    forall i | 0 <= i < |lines| && Sets(lines[i], key, style)
      ensures OverLine(Rewritten(lines[i], key, first, newline), key, second, style, newline) ==
              Rewritten(lines[i], key, second, newline)
    {
      RewrittenSets(lines[i], key, first, style, newline);
    }
  }

  lemma OverTwiceAbsent(lines: seq<string>, key: string, first: string, second: string, style: Style, newline: string,
                        later: string)
    requires ValidKey(key) && PlainText(first) && IsNewline(newline) && !Present(lines, key, style)
    ensures Over(NewLines(lines, key, first, style, newline), key, second, style, later) ==
            Closed(lines, newline) + [Assignment(key, second) + later]
  {
    var closed, added := Closed(lines, newline), Assignment(key, first) + newline;
    ClosedSets(lines, newline, style);
    assert !Present(closed, key, style) by {
      forall i | 0 <= i < |lines| ensures !Sets(closed[i], key, style) {
        assert SameSetting(closed[i], lines[i], style);
      }
    }
    RewrittenAdded(key, first, second, style, newline, later);
    OverLast(closed, added, key, second, style, later);
  }

  lemma OverLast(lines: seq<string>, last: string, key: string, text: string, style: Style, newline: string)
    requires !Present(lines, key, style)
    ensures Over(lines + [last], key, text, style, newline) == lines + [OverLine(last, key, text, style, newline)]
  {
    OverNothing(lines, key, text, style, newline);
    assert Over(lines + [last], key, text, style, newline)[..|lines|] == Over(lines, key, text, style, newline);
  }

  lemma RewrittenAdded(key: string, first: string, second: string, style: Style, newline: string, later: string)
    requires ValidKey(key) && PlainText(first) && IsNewline(newline)
    ensures OverLine(Assignment(key, first) + newline, key, second, style, later) == Assignment(key, second) + later
  {
    AddedSets(key, first, style, newline);
    assert "" + Assignment(key, second) + later == Assignment(key, second) + later;
  }

  /**
   * A second write of a key wins as if the first had not happened, whatever its value, unless the first was added
   * behind a bare CR; then the second ends its line with CR LF and the files differ.
   */
  lemma SecondWriteWins(source: string, key: string, first: string, second: string, style: Style)
    requires ValidKey(key) && Upsert(source, key, first, style).Ok? && !Forbidden(second)
    ensures Upsert(Upsert(source, key, first, style).value, key, second, style) == Upsert(source, key, second, style)
            <==> !BareCr(source, key, style)
  {
    var once := Upsert(source, key, first, style).value;
    var lines, newline, text := Lines(source), Newline(source), Encoded(second, style);
    LinesWritten(source, key, first, style);
    EncodedIsPlain(second, style);
    NewlineKept(source, key, first, style);
    var at := WritesOneLine(source, key, first, style);
    assert Present(Lines(once), key, style) && !Duplicate(Lines(once), key, style);
    if Present(lines, key, style) {
      OverTwicePresent(lines, key, Encoded(first, style), text, style, newline);
    } else {
      OverTwiceAbsent(lines, key, Encoded(first, style), text, style, newline, Newline(once));
      JoinPush(Closed(lines, newline), Assignment(key, text) + newline);
      JoinPush(Closed(lines, newline), Assignment(key, text) + Newline(once));
    }
  }

  /** Writing one key leaves where another is set, and what is written over that, alone. */
  lemma OverOther(lines: seq<string>, key: string, text: string, other: string, style: Style, newline: string)
    requires ValidKey(key) && PlainText(text) && IsNewline(newline) && key != other
    ensures var now := Over(lines, key, text, style, newline);
            && (Present(now, other, style) <==> Present(lines, other, style))
            && (Duplicate(now, other, style) <==> Duplicate(lines, other, style))
  {
    var now := Over(lines, key, text, style, newline);
    forall i | 0 <= i < |lines| ensures Sets(now[i], other, style) <==> Sets(lines[i], other, style) {
      if Sets(lines[i], key, style) {
        RewrittenSets(lines[i], key, text, style, newline);
      }
    }
  }

  lemma OversCommute(lines: seq<string>, key: string, text: string, other: string, more: string, style: Style, newline: string)
    requires ValidKey(key) && PlainText(text) && ValidKey(other) && PlainText(more) && IsNewline(newline) && key != other
    ensures Over(Over(lines, key, text, style, newline), other, more, style, newline) ==
            Over(Over(lines, other, more, style, newline), key, text, style, newline)
  {
    forall i | 0 <= i < |lines|
      ensures OverLine(OverLine(lines[i], key, text, style, newline), other, more, style, newline) ==
              OverLine(OverLine(lines[i], other, more, style, newline), key, text, style, newline)
    {
      if Sets(lines[i], key, style) {
        RewrittenSets(lines[i], key, text, style, newline);
      } else if Sets(lines[i], other, style) {
        RewrittenSets(lines[i], other, more, style, newline);
      }
    }
  }

  /** A second write, of another key: both lines are written over the first file's lines. */
  lemma SecondKeyOver(source: string, key: string, value: string, other: string, more: string, style: Style)
    requires ValidKey(key) && ValidKey(other) && key != other
    ensures var lines, newline, one := Lines(source), Newline(source), Upsert(source, key, value, style);
            Present(lines, key, style) && Present(lines, other, style) && one.Ok? && Upsert(source, other, more, style).Ok? ==>
              Upsert(one.value, other, more, style) ==
              Ok(Join(Over(Over(lines, key, Encoded(value, style), style, newline), other, Encoded(more, style), style, newline)))
  {
    if Present(Lines(source), key, style) && Upsert(source, key, value, style).Ok? {
      LinesWritten(source, key, value, style);
      NewlineKept(source, key, value, style);
      OverOther(Lines(source), key, Encoded(value, style), other, style, Newline(source));
    }
  }

  /** Writes to two different keys that are both present commute, and the one does not make the other fail. */
  lemma WritesCommute(source: string, key: string, value: string, other: string, more: string, style: Style)
    requires ValidKey(key) && ValidKey(other) && key != other
    ensures var one, two := Upsert(source, key, value, style), Upsert(source, other, more, style);
            Present(Lines(source), key, style) && Present(Lines(source), other, style) && one.Ok? && two.Ok? ==>
              Upsert(one.value, other, more, style).Ok? &&
              Upsert(one.value, other, more, style) == Upsert(two.value, key, value, style)
  {
    SecondKeyOver(source, key, value, other, more, style);
    SecondKeyOver(source, other, more, key, value, style);
    if !Forbidden(value) && !Forbidden(more) {
      EncodedIsPlain(value, style);
      EncodedIsPlain(more, style);
      OversCommute(Lines(source), key, Encoded(value, style), other, Encoded(more, style), style, Newline(source));
    }
  }

  lemma SingleLine(s: string, key: string, value: string, style: Style)
    requires s != "" && '\n' !in s && !Forbidden(value)
    ensures Lines(s) == [s] && Upsert(s, key, value, style).Ok?
  {
    assert forall i | 0 <= i < |s| :: s[i] in s && !LineFeed(s[i]);
    assert !Duplicate([s], key, style);
  }

  /** Both edges are within reach of ordinary files. */
  lemma BareCrIsReachable()
    ensures BareCr("#\r", "k", SingleQuoted) && Upsert("#\r", "k", "v", SingleQuoted).Ok?
  {
    SingleLine("#\r", "k", "v", SingleQuoted);
    CommentLine();
    assert !Present(["#\r"], "k", SingleQuoted);
  }

  lemma CommentLine()
    ensures Setting("#\r", SingleQuoted) == None
  {
    BodyOf("#", "\r");
    assert "#" + "\r" == "#\r" && Body("#") == "#" && Find("#", EqualsSign) == 1;
  }

  lemma ExportCaseIsReachable()
    ensures ExportCase("export a", "export", Properties) && Upsert("export a", "export", "v", Properties).Ok?
  {
    SingleLine("export a", "export", "v", Properties);
    ExportLine();
    assert Sets(Lines("export a")[0], "export", Properties);
  }

  lemma ExportLine()
    ensures Sets("export a", "export", Properties) && Exported("export a")
  {
    var line := "export a";
    assert TrimStart(Body(line)) == line;
    FoundAt(line, Separator, 6);
    assert line[..6] == "export" && line[..7] == EXPORT;
  }

  // ---- compose files ----

  /** How a compose file's value is interpolated; a dollar sign that is not doubled begins a substitution, `None` here. */
  function Interpolated(s: string): Option<string> {
    if s == "" then Some("")
    else if s[0] != '$' then
      match Interpolated(s[1..]) case None => None case Some(rest) => Some([s[0]] + rest)
    else if |s| < 2 || s[1] != '$' then None
    else match Interpolated(s[2..]) case None => None case Some(rest) => Some("$" + rest)
  }

  /** The doubling in `render_compose` keeps every value out of interpolation and gives it back unchanged. */
  lemma {:induction false} DollarsSurvive(value: string)
    ensures Interpolated(ReplaceChar(value, '$', "$$")) == Some(value)
  {
    if value != "" {
      DollarsSurvive(value[1..]);
      var s := ReplaceChar(value, '$', "$$");
      if value[0] == '$' {
        assert s[2..] == ReplaceChar(value[1..], '$', "$$");
      } else {
        assert s[1..] == ReplaceChar(value[1..], '$', "$$");
      }
      assert [value[0]] + value[1..] == value;
    }
  }
}
