/** Which existing lines set a key, said by their shape rather than by the search that finds the key. */
module KeyValueLines {
  import opened Basics
  import opened KeyValue

  predicate Blank(s: string) { forall c | c in s :: White(c) }

  predicate Ends(s: string) { forall c | c in s :: c == '\r' || c == '\n' }

  /** A line is its front and the CR and LF at its end. */
  predicate Front(front: string) { front == "" || (front[|front| - 1] != '\r' && front[|front| - 1] != '\n') }

  lemma FrontIsBody(front: string, ends: string)
    requires Front(front) && Ends(ends)
    ensures Body(front + ends) == front
  {
    BodyOf(front, ends);
  }

  // ---- trimming ----

  lemma {:induction false} TrimmedFront(blank: string, s: string)
    requires Blank(blank) && (s == "" || !White(s[0]))
    ensures TrimStart(blank + s) == s
  {
    if blank == "" {
      assert blank + s == s;
    } else {
      assert blank[0] in blank && forall c | c in blank[1..] :: c in blank;
      assert (blank + s)[1..] == blank[1..] + s;
      TrimmedFront(blank[1..], s);
    }
  }

  lemma {:induction false} TrimmedBack(s: string, blank: string)
    requires Blank(blank) && (s == "" || !White(s[|s| - 1]))
    ensures TrimEnd(s + blank) == s
  {
    if blank == "" {
      assert s + blank == s;
    } else {
      var last := |blank| - 1;
      assert blank[last] in blank && forall c | c in blank[..last] :: c in blank;
      assert (s + blank)[..|s + blank| - 1] == s + blank[..last];
      TrimmedBack(s, blank[..last]);
    }
  }

  lemma {:induction false} FrontSplit(s: string) returns (blank: string)
    ensures Blank(blank) && s == blank + TrimStart(s) && (TrimStart(s) == "" || !White(TrimStart(s)[0]))
  {
    if s != "" && White(s[0]) {
      var more := FrontSplit(s[1..]);
      blank := [s[0]] + more;
      assert s == [s[0]] + s[1..];
      Associates([s[0]], more, TrimStart(s[1..]));
    } else {
      blank := "";
    }
  }

  lemma {:induction false} BackSplit(s: string) returns (blank: string)
    ensures Blank(blank) && s == TrimEnd(s) + blank
  {
    if s != "" && White(s[|s| - 1]) {
      var more := BackSplit(s[..|s| - 1]);
      blank := more + [s[|s| - 1]];
      assert s == s[..|s| - 1] + [s[|s| - 1]];
    } else {
      blank := "";
    }
  }

  lemma KeyIsTight(key: string)
    requires ValidKey(key)
    ensures !White(key[0]) && !White(key[|key| - 1])
    ensures forall c | c in key :: c != '=' && !Separator(c) && c != '#' && c != '!'
  {
    assert key[0] in key && key[|key| - 1] in key;
  }

  lemma TrimmedKey(before: string, key: string, behind: string)
    requires ValidKey(key) && Blank(before) && Blank(behind)
    ensures Trim(before + key + behind) == key
  {
    KeyIsTight(key);
    assert (before + key)[|before + key| - 1] == key[|key| - 1];
    TrimmedBack(before + key, behind);
    TrimmedFront(before, key);
  }

  lemma TrimSplit(s: string) returns (before: string, behind: string)
    ensures Blank(before) && Blank(behind) && s == before + Trim(s) + behind
  {
    behind := BackSplit(s);
    before := FrontSplit(TrimEnd(s));
  }

  // ---- properties ----

  /** A properties line sets the key that stands at its beginning before white space, an equals sign or a colon. */
  lemma PropertiesLineSets(blank: string, key: string, separator: char, rest: string, ends: string)
    requires ValidKey(key) && Blank(blank) && Ends(ends) && separator in "=: \t\n\U{c}\r"
    requires Front(blank + key + [separator] + rest)
    ensures Sets(blank + key + [separator] + rest + ends, key, Properties)
  {
    var trimmed := key + [separator] + rest;
    KeyIsTight(key);
    FrontIsBody(blank + key + [separator] + rest, ends);
    assert blank + key + [separator] + rest == blank + trimmed && trimmed[0] == key[0];
    assert key[0] in key;
    TrimmedFront(blank, trimmed);
    assert trimmed[|key|] == separator && forall i | 0 <= i < |key| :: trimmed[i] == key[i] && key[i] in key;
    FoundAt(trimmed, Separator, |key|);
    assert trimmed[..|key|] == key;
  }

  /** And no other line does. */
  lemma PropertiesLineShape(front: string, key: string, ends: string) returns (blank: string, separator: char, rest: string)
    requires ValidKey(key) && Front(front) && Ends(ends) && Sets(front + ends, key, Properties)
    ensures Blank(blank) && separator in "=: \t\n\U{c}\r" && front == blank + key + [separator] + rest
  {
    FrontIsBody(front, ends);
    blank := FrontSplit(front);
    var trimmed := TrimStart(front);
    var n := Find(trimmed, Separator);
    separator, rest := trimmed[n], trimmed[n + 1..];
    assert Separator(separator);
    assert "=: \t\n\U{c}\r"[0] == '=' && "=: \t\n\U{c}\r"[1] == ':' && "=: \t\n\U{c}\r"[2] == ' ' && "=: \t\n\U{c}\r"[3] == '\t'
           && "=: \t\n\U{c}\r"[4] == '\n' && "=: \t\n\U{c}\r"[5] == '\U{c}' && "=: \t\n\U{c}\r"[6] == '\r';
    assert trimmed == trimmed[..n] + [separator] + rest;
    assert front == blank + (key + [separator] + rest);
  }

  // ---- dotenv ----

  /** A dotenv line sets the key before its first equals sign, whatever white space surrounds the key. */
  lemma DotenvLineSets(blank: string, key: string, behind: string, rest: string, ends: string)
    requires ValidKey(key) && Blank(blank) && Blank(behind) && Ends(ends)
    requires !("export " <= key + behind) && Front(blank + key + behind + "=" + rest)
    ensures Sets(blank + key + behind + "=" + rest + ends, key, SingleQuoted)
  {
    var trimmed := key + behind + "=" + rest;
    KeyIsTight(key);
    FrontIsBody(blank + key + behind + "=" + rest, ends);
    assert blank + key + behind + "=" + rest == blank + trimmed && trimmed[0] == key[0];
    TrimmedFront(blank, trimmed);
    NotBehindExport(key + behind, rest);
    EqualsFound("", key, behind, rest);
    assert "" + key + behind == key + behind;
  }

  lemma NotBehindExport(s: string, rest: string)
    requires !("export " <= s)
    ensures !("export " <= s + "=" + rest)
  {
    var t := s + "=" + rest;
    if |s| < 7 {
      assert t[|s|] == '=' && "export "[|s|] != '=';
    } else {
      assert t[..7] == s[..7];
    }
  }

  lemma EqualsFound(before: string, key: string, behind: string, rest: string)
    requires ValidKey(key) && Blank(before) && Blank(behind)
    ensures var s := before + key + behind + "=" + rest;
            Find(s, EqualsSign) == |before + key + behind| && Trim(s[..|before + key + behind|]) == key
  {
    var name := before + key + behind;
    var s := name + "=" + rest;
    KeyIsTight(key);
    assert s[|name|] == '=';
    forall i | 0 <= i < |name| ensures !EqualsSign(s[i]) {
      assert s[i] == name[i] && name[i] in name;
      assert name[i] in before || name[i] in key || name[i] in behind;
    }
    FoundAt(s, EqualsSign, |name|);
    assert s[..|name|] == name;
    TrimmedKey(before, key, behind);
  }

  /** Behind `export ` as well. */
  lemma ExportedLineSets(blank: string, before: string, key: string, behind: string, rest: string, ends: string)
    requires ValidKey(key) && Blank(blank) && Blank(before) && Blank(behind) && Ends(ends)
    requires Front(blank + "export " + before + key + behind + "=" + rest)
    ensures Sets(blank + "export " + before + key + behind + "=" + rest + ends, key, SingleQuoted)
  {
    var stripped := before + key + behind + "=" + rest;
    FrontIsBody(blank + "export " + before + key + behind + "=" + rest, ends);
    assert blank + "export " + before + key + behind + "=" + rest == blank + ("export " + stripped);
    TrimmedFront(blank, "export " + stripped);
    ExportPrefix(stripped);
    EqualsFound(before, key, behind, rest);
  }

  lemma ExportSplit(trimmed: string) returns (exported: string)
    ensures trimmed == exported + StripExport(trimmed) && (exported == "" || exported == "export ")
  {
    exported := if "export " <= trimmed then "export " else "";
  }

  lemma NameAndRest(stripped: string) returns (before: string, behind: string, rest: string)
    requires Find(stripped, EqualsSign) < |stripped|
    ensures Blank(before) && Blank(behind)
    ensures stripped == before + Trim(stripped[..Find(stripped, EqualsSign)]) + behind + "=" + rest
    ensures rest == stripped[Find(stripped, EqualsSign) + 1..]
  {
    var n := Find(stripped, EqualsSign);
    rest := stripped[n + 1..];
    assert [stripped[n]] == "=";
    assert stripped == stripped[..n] + [stripped[n]] + rest;
    before, behind := TrimSplit(stripped[..n]);
  }

  /** And no other line does. */
  lemma DotenvLineShape(front: string, key: string, ends: string)
    returns (blank: string, exported: string, before: string, behind: string, rest: string)
    requires ValidKey(key) && Front(front) && Ends(ends) && Sets(front + ends, key, SingleQuoted)
    ensures Blank(blank) && Blank(before) && Blank(behind) && (exported == "" || exported == "export ")
    ensures front == blank + exported + (before + key + behind + "=" + rest)
  {
    FrontIsBody(front, ends);
    blank := FrontSplit(front);
    var trimmed := TrimStart(front);
    exported := ExportSplit(trimmed);
    before, behind, rest := NameAndRest(StripExport(trimmed));
    Associates(blank, exported, StripExport(trimmed));
  }

  // ---- the line that is written ----

  lemma LineWrittenOver(lines: seq<string>, key: string, text: string, style: Style, newline: string, at: nat)
    requires ValidKey(key) && PlainText(text) && IsNewline(newline) && Present(lines, key, style)
    requires OnlyAt(Over(lines, key, text, style, newline), at, key, style)
    ensures at < |lines| && Over(lines, key, text, style, newline)[at] == Rewritten(lines[at], key, text, newline)
  {
    var k :| 0 <= k < |lines| && Sets(lines[k], key, style);
    RewrittenSets(lines[k], key, text, style, newline);
    assert Over(lines, key, text, style, newline)[k] == Rewritten(lines[k], key, text, newline);
  }

  lemma LineWrittenBehind(lines: seq<string>, key: string, text: string, style: Style, newline: string, at: nat)
    requires ValidKey(key) && PlainText(text) && IsNewline(newline) && !Present(lines, key, style)
    requires OnlyAt(NewLines(lines, key, text, style, newline), at, key, style)
    ensures at == |lines| && NewLines(lines, key, text, style, newline)[at] == Assignment(key, text) + newline
  {
    AddedSets(key, text, style, newline);
    ClosedSets(lines, newline, style);
    assert NewLines(lines, key, text, style, newline)[|lines|] == Assignment(key, text) + newline;
  }

  /**
   * The line that sets the key after a write: an `export ` only where one stood, and the file's own newline unless the
   * line had none.
   */
  lemma WrittenLine(source: string, key: string, value: string, style: Style) returns (at: nat)
    requires ValidKey(key) && Upsert(source, key, value, style).Ok?
    ensures var was, now := Lines(source), Lines(Upsert(source, key, value, style).value);
            && OnlyAt(now, at, key, style) && at <= |was|
            && now[at] == (if at < |was| && "export " <= TrimStart(Body(was[at])) then "export " else "")
                          + (key + "=" + Encoded(value, style))
                          + (if at < |was| && (was[at] == "" || was[at][|was[at]| - 1] != '\n') then ""
                             else if HasCrLf(source) then "\r\n" else "\n")
  {
    LinesWritten(source, key, value, style);
    at := WritesOneLine(source, key, value, style);
    if Present(Lines(source), key, style) {
      LineWrittenOver(Lines(source), key, Encoded(value, style), style, Newline(source), at);
    } else {
      LineWrittenBehind(Lines(source), key, Encoded(value, style), style, Newline(source), at);
      assert "" + Assignment(key, Encoded(value, style)) == Assignment(key, Encoded(value, style));
    }
  }
}
