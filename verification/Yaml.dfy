/** The flat key-value configuration format: printing, parsing, and when they undo each other. */
module Yaml {
  import opened Prelude

  type Dict = map<string, string>

  /** CharacterSet.newlines */
  predicate IsNewline(c: char) {
    var u := c as int;
    0xA <= u <= 0xD || u == 0x85 || u == 0x2028 || u == 0x2029
  }

  /** CharacterSet.whitespaces: the tab and the space separators */
  predicate IsBlank(c: char) {
    var u := c as int;
    u == 0x9 || u == 0x20 || u == 0xA0 || u == 0x1680 || 0x2000 <= u <= 0x200A || u == 0x202F || u == 0x205F || u == 0x3000
  }

  function TrimRight(s: string): string {
    if s != "" && IsBlank(s[|s| - 1]) then TrimRight(s[..|s| - 1]) else s
  }

  function TrimLeft(s: string): string {
    if s != "" && IsBlank(s[0]) then TrimLeft(s[1..]) else s
  }

  function Trim(s: string): string { TrimLeft(TrimRight(s)) }

  /** components(separatedBy: .newlines) */
  function SplitLines(s: string): (lines: seq<string>)
    ensures |lines| >= 1
  {
    if s == "" then [""]
    else
      var init, c := SplitLines(s[..|s| - 1]), s[|s| - 1];
      if IsNewline(c) then init + [""] else init[..|init| - 1] + [init[|init| - 1] + [c]]
  }

  /** joined(separator: "\n") */
  function Join(lines: seq<string>): string {
    if lines == [] then ""
    else if |lines| == 1 then lines[0]
    else Join(lines[..|lines| - 1]) + "\n" + lines[|lines| - 1]
  }

  function FirstIndex(s: string, c: char): (i: nat)
    ensures i <= |s| && c !in s[..i] && (i < |s| ==> s[i] == c)
  {
    if s == "" || s[0] == c then 0 else 1 + FirstIndex(s[1..], c)
  }

  predicate Wrapped(v: string, quote: char) {
    |v| >= 2 && v[0] == quote && v[|v| - 1] == quote
  }

  function Unquoted(v: string): string {
    if Wrapped(v, '"') || Wrapped(v, '\'') then v[1..|v| - 1] else v
  }

  predicate Special(v: string) { ':' in v || '#' in v || '"' in v }

  function Quoted(v: string): string { if Special(v) then "\"" + v + "\"" else v }

  /** What one line says, if anything. */
  function EntryOf(line: string): Option<(string, string)> {
    var t := Trim(line);
    var i := FirstIndex(t, ':');
    if t == "" || t[0] == '#' || i == |t| then None
    else Some((Trim(t[..i]), Unquoted(Trim(t[i + 1..]))))
  }

  function With(d: Dict, e: Option<(string, string)>): Dict {
    if e.Some? then d[e.value.0 := e.value.1] else d
  }

  /** Later lines win. */
  function Parsed(lines: seq<string>): Dict {
    if lines == [] then map[] else With(Parsed(lines[..|lines| - 1]), EntryOf(lines[|lines| - 1]))
  }

  function Line(key: string, value: string): string { key + ": " + Quoted(value) }

  function LinesOf(d: Dict, order: seq<string>): seq<string> {
    if order == [] then []
    else
      var key := order[|order| - 1];
      LinesOf(d, order[..|order| - 1]) + if key in d && d[key] != "" then [Line(key, d[key])] else []
  }

  lemma ParsedSnoc(lines: seq<string>, i: nat)
    requires i < |lines|
    ensures Parsed(lines[..i + 1]) == With(Parsed(lines[..i]), EntryOf(lines[i]))
  {
    assert lines[..i + 1][..i] == lines[..i];
  }

  method Parse(content: string) returns (result: Dict)
    ensures result == Parsed(SplitLines(content))
  {
    result := map[];
    var lines := SplitLines(content);
    for i := 0 to |lines|
      invariant result == Parsed(lines[..i])
    {
      ParsedSnoc(lines, i);
      var trimmed := Trim(lines[i]);
      if trimmed == "" || trimmed[0] == '#' {
        continue;
      }
      var colonIndex := FirstIndex(trimmed, ':');
      if colonIndex == |trimmed| {
        continue;
      }
      var key := Trim(trimmed[..colonIndex]);
      var value := Trim(trimmed[colonIndex + 1..]);
      if |value| >= 2 && ((value[0] == '"' && value[|value| - 1] == '"') || (value[0] == '\'' && value[|value| - 1] == '\'')) {
        result := result[key := value[1..|value| - 1]];
      } else {
        result := result[key := value];
      }
    }
    assert lines[..|lines|] == lines;
  }

  method Serialize(d: Dict, keyOrder: seq<string>) returns (content: string)
    ensures content == Join(LinesOf(d, keyOrder)) + "\n"
  {
    var lines: seq<string> := [];
    for i := 0 to |keyOrder|
      invariant lines == LinesOf(d, keyOrder[..i])
    {
      assert keyOrder[..i + 1][..i] == keyOrder[..i];
      var key := keyOrder[i];
      if key in d && d[key] != "" {
        var value := d[key];
        if ':' in value || '#' in value || '"' in value {
          lines := lines + [key + ": " + ("\"" + value + "\"")];
        } else {
          lines := lines + [key + ": " + value];
        }
      }
    }
    assert keyOrder[..|keyOrder|] == keyOrder;
    content := Join(lines) + "\n";
  }

  // ---------------------------------------------------------------- when a dictionary survives

  predicate NoNewline(s: string) {
    forall i :: 0 <= i < |s| ==> !IsNewline(s[i])
  }

  predicate KeyOk(k: string) {
    Trim(k) == k && ':' !in k && NoNewline(k) && (k != "" ==> k[0] != '#')
  }

  predicate ValueOk(v: string) {
    NoNewline(v) && (Special(v) || (Trim(v) == v && !Wrapped(v, '\'')))
  }

  /** The entries that are printed: non-empty, and listed in the key order. */
  function Kept(d: Dict, order: seq<string>): Dict {
    map k | k in d && k in order && d[k] != "" :: d[k]
  }

  // ---------------------------------------------------------------- trimming

  lemma {:induction false} TrimRightEnds(s: string)
    ensures TrimRight(s) <= s && (TrimRight(s) != "" ==> !IsBlank(TrimRight(s)[|TrimRight(s)| - 1]))
  {
    if s != "" && IsBlank(s[|s| - 1]) {
      TrimRightEnds(s[..|s| - 1]);
    }
  }

  lemma TrimRightTwice(s: string)
    ensures TrimRight(TrimRight(s)) == TrimRight(s)
  {
    TrimRightEnds(s);
  }

  lemma {:induction false} TrimRightAfter(a: string, b: string)
    requires a != "" && !IsBlank(a[|a| - 1])
    ensures TrimRight(a + b) == a + TrimRight(b)
  {
    if b == "" {
      assert a + b == a;
    } else {
      assert (a + b)[..|a + b| - 1] == a + b[..|b| - 1];
      if IsBlank(b[|b| - 1]) {
        TrimRightAfter(a, b[..|b| - 1]);
      }
    }
  }

  /** TrimLeft leaves a suffix, which keeps its last character. */
  lemma {:induction false} TrimLeftKeepsEnd(s: string)
    ensures TrimLeft(s) != "" ==> s != "" && TrimLeft(s)[|TrimLeft(s)| - 1] == s[|s| - 1] && !IsBlank(TrimLeft(s)[0])
    ensures |TrimLeft(s)| <= |s| && s[|s| - |TrimLeft(s)|..] == TrimLeft(s)
  {
    if s != "" && IsBlank(s[0]) {
      TrimLeftKeepsEnd(s[1..]);
    }
  }

  /** A trimmed text has no blank at either end, and such a text is left alone. */
  lemma TrimEnds(s: string)
    ensures Trim(s) != "" ==> !IsBlank(Trim(s)[0]) && !IsBlank(Trim(s)[|Trim(s)| - 1])
    ensures Trim(Trim(s)) == Trim(s) && |Trim(s)| <= |s|
  {
    TrimRightEnds(s);
    TrimLeftKeepsEnd(TrimRight(s));
  }

  lemma NothingToTrim(s: string)
    requires s != "" ==> !IsBlank(s[0]) && !IsBlank(s[|s| - 1])
    ensures Trim(s) == s
  {
  }

  lemma {:induction false} TrimRightOfBlankFirst(c: char, s: string)
    requires IsBlank(c)
    ensures TrimRight([c] + s) == if TrimRight(s) == "" then "" else [c] + TrimRight(s)
  {
    if s == "" {
      assert [c] + s == [c] && [c][..0] == "";
    } else {
      assert ([c] + s)[..|s|] == [c] + s[..|s| - 1];
      if IsBlank(s[|s| - 1]) {
        TrimRightOfBlankFirst(c, s[..|s| - 1]);
      }
    }
  }

  lemma TrimBlankFirst(c: char, s: string)
    requires IsBlank(c)
    ensures Trim([c] + s) == Trim(s)
  {
    TrimRightOfBlankFirst(c, s);
    assert TrimRight(s) != "" ==> ([c] + TrimRight(s))[1..] == TrimRight(s);
  }

  lemma TrimPart(s: string, line: string)
    requires NoNewline(line) && forall c :: c in s ==> c in line
    ensures NoNewline(s) && NoNewline(Trim(s)) && (forall c :: c in Trim(s) ==> c in s)
  {
    TrimRightEnds(s);
    TrimLeftKeepsEnd(TrimRight(s));
    forall c | c in Trim(s) ensures c in s {
      var i :| 0 <= i < |Trim(s)| && Trim(s)[i] == c;
      var r := TrimRight(s);
      assert r[|r| - |Trim(s)|..][i] == c;
    }
    forall i | 0 <= i < |s| ensures !IsNewline(s[i]) {
      assert s[i] in line;
    }
    forall i | 0 <= i < |Trim(s)| ensures !IsNewline(Trim(s)[i]) {
      assert Trim(s)[i] in s;
    }
  }

  // ---------------------------------------------------------------- lines

  lemma {:induction false} SplitAt(a: string, b: string)
    requires NoNewline(b)
    ensures SplitLines(a + "\n" + b) == SplitLines(a) + [b]
  {
    var s := a + "\n" + b;
    if b == "" {
      assert s[..|s| - 1] == a;
    } else {
      var init := b[..|b| - 1];
      SplitAt(a, init);
      assert s[..|s| - 1] == a + "\n" + init;
      assert init + [b[|b| - 1]] == b;
      assert SplitLines(s) == (SplitLines(a) + [init])[..|SplitLines(a)|] + [init + [b[|b| - 1]]];
    }
  }

  lemma {:induction false} SplitOne(b: string)
    requires NoNewline(b)
    ensures SplitLines(b) == [b]
  {
    if b != "" {
      SplitOne(b[..|b| - 1]);
      assert b[..|b| - 1] + [b[|b| - 1]] == b;
    }
  }

  lemma {:induction false} SplitJoin(lines: seq<string>)
    requires lines != [] && forall i :: 0 <= i < |lines| ==> NoNewline(lines[i])
    ensures SplitLines(Join(lines)) == lines
  {
    if |lines| == 1 {
      SplitOne(lines[0]);
    } else {
      var init, last := lines[..|lines| - 1], lines[|lines| - 1];
      SplitJoin(init);
      SplitAt(Join(init), last);
      assert init + [last] == lines;
    }
  }

  lemma {:induction false} LinesHaveNoNewline(s: string)
    ensures forall i :: 0 <= i < |SplitLines(s)| ==> NoNewline(SplitLines(s)[i])
  {
    if s != "" {
      LinesHaveNoNewline(s[..|s| - 1]);
    }
  }

  // ---------------------------------------------------------------- one entry

  /** The value that comes back for `v`. */
  function Recovered(v: string): string { Unquoted(Trim(" " + Quoted(v))) }

  lemma {:induction false} FirstColon(key: string, rest: string)
    requires ':' !in key
    ensures FirstIndex(key + ":" + rest, ':') == |key|
  {
    if key != "" {
      FirstColon(key[1..], rest);
      assert (key + ":" + rest)[1..] == key[1..] + ":" + rest;
    }
  }

  lemma TrimLine(key: string, rest: string)
    requires KeyOk(key)
    ensures Trim(key + ":" + rest) == key + ":" + TrimRight(rest)
  {
    TrimRightAfter(key + ":", rest);
    TrimEnds(key);
  }

  lemma EntryOfLine(key: string, value: string)
    requires KeyOk(key)
    ensures EntryOf(Line(key, value)) == Some((key, Recovered(value)))
  {
    var rest := " " + Quoted(value);
    assert Line(key, value) == key + ":" + rest;
    TrimLine(key, rest);
    var t := key + ":" + TrimRight(rest);
    FirstColon(key, TrimRight(rest));
    assert t[..|key|] == key && t[|key| + 1..] == TrimRight(rest);
    TrimRightTwice(rest);
    assert key != "" ==> t[0] == key[0];
  }

  lemma QuotedComesBack(v: string)
    requires Special(v)
    ensures Recovered(v) == v
  {
    var q := "\"" + v + "\"";
    TrimBlankFirst(' ', q);
    NothingToTrim(q);
    assert q[1..|q| - 1] == v;
  }

  /** A value comes back unchanged exactly when it is quoted, or is trimmed and not in single quotes. */
  lemma ComesBackExactly(v: string)
    ensures Recovered(v) == v <==> Special(v) || (Trim(v) == v && !Wrapped(v, '\''))
  {
    if Special(v) {
      QuotedComesBack(v);
    } else {
      TrimBlankFirst(' ', v);
      TrimEnds(v);
      if Trim(v) == v {
        assert !Wrapped(v, '"');
      }
    }
  }

  /** What every parsed key and value looks like. */
  lemma EntryShape(line: string)
    requires NoNewline(line) && EntryOf(line).Some?
    ensures KeyOk(EntryOf(line).value.0) && NoNewline(EntryOf(line).value.1)
  {
    var t := Trim(line);
    var i := FirstIndex(t, ':');
    TrimPart(line, line);
    TrimEnds(line);
    KeyShape(t, i);
    var value := Trim(t[i + 1..]);
    TrimPart(t[i + 1..], t);
  }

  lemma KeyShape(t: string, i: nat)
    requires NoNewline(t) && i < |t| && ':' !in t[..i] && !IsBlank(t[0]) && t[0] != '#'
    ensures KeyOk(Trim(t[..i]))
  {
    var s := t[..i];
    TrimPart(s, t);
    TrimEnds(s);
    if s != "" {
      TrimRightAfter(s[..1], s[1..]);
      assert s[..1] + s[1..] == s;
      assert Trim(s)[0] == t[0];
    }
  }

  lemma {:induction false} ParsedShape(lines: seq<string>)
    requires forall i :: 0 <= i < |lines| ==> NoNewline(lines[i])
    ensures forall k :: k in Parsed(lines) ==> KeyOk(k) && NoNewline(Parsed(lines)[k])
  {
    if lines != [] {
      ParsedShape(lines[..|lines| - 1]);
      var last := lines[|lines| - 1];
      if EntryOf(last).Some? {
        EntryShape(last);
      }
    }
  }

  // ---------------------------------------------------------------- the whole file

  ghost predicate CleanLines(kept: Dict) {
    forall k :: k in kept ==> KeyOk(k) && NoNewline(kept[k])
  }

  lemma LineHasNoNewline(key: string, value: string)
    requires NoNewline(key) && NoNewline(value)
    ensures NoNewline(Line(key, value))
  {
    assert NoNewline(Quoted(value));
  }

  /** What comes back for the printed entries. */
  function AllRecovered(kept: Dict): Dict {
    map k | k in kept :: Recovered(kept[k])
  }

  lemma KeptSnoc(d: Dict, order: seq<string>, key: string)
    ensures Kept(d, order + [key]) == if key in d && d[key] != "" then Kept(d, order)[key := d[key]] else Kept(d, order)
  {
  }

  lemma LinesOfSnoc(d: Dict, order: seq<string>, key: string)
    ensures LinesOf(d, order + [key])
         == if key in d && d[key] != "" then LinesOf(d, order) + [Line(key, d[key])] else LinesOf(d, order)
  {
    assert (order + [key])[..|order|] == order;
  }

  lemma ParsedLast(lines: seq<string>, line: string)
    ensures Parsed(lines + [line]) == With(Parsed(lines), EntryOf(line))
  {
    assert (lines + [line])[..|lines|] == lines;
  }

  lemma AllRecoveredPut(kept: Dict, key: string, value: string)
    ensures AllRecovered(kept[key := value]) == AllRecovered(kept)[key := Recovered(value)]
  {
  }

  lemma PrintedSnoc(d: Dict, order: seq<string>, key: string)
    requires key in d && d[key] != "" && KeyOk(key) && Parsed(LinesOf(d, order)) == AllRecovered(Kept(d, order))
    ensures Parsed(LinesOf(d, order) + [Line(key, d[key])]) == AllRecovered(Kept(d, order)[key := d[key]])
  {
    EntryOfLine(key, d[key]);
    ParsedLast(LinesOf(d, order), Line(key, d[key]));
    AllRecoveredPut(Kept(d, order), key, d[key]);
  }

  lemma {:induction false} PrintedLines(d: Dict, order: seq<string>)
    requires CleanLines(Kept(d, order))
    ensures forall i :: 0 <= i < |LinesOf(d, order)| ==> NoNewline(LinesOf(d, order)[i])
    ensures Parsed(LinesOf(d, order)) == AllRecovered(Kept(d, order))
  {
    if order != [] {
      var init, key := order[..|order| - 1], order[|order| - 1];
      assert order == init + [key];
      KeptSnoc(d, init, key);
      LinesOfSnoc(d, init, key);
      PrintedLines(d, init);
      if key in d && d[key] != "" {
        assert key in Kept(d, order);
        PrintedSnoc(d, init, key);
        LineHasNoNewline(key, d[key]);
      }
    }
  }

  lemma BlankLineSaysNothing(lines: seq<string>)
    ensures Parsed(lines + [""]) == Parsed(lines)
  {
    assert (lines + [""])[..|lines|] == lines;
    assert EntryOf("") == None;
  }

  lemma EndOfFile(lines: seq<string>)
    requires forall i :: 0 <= i < |lines| ==> NoNewline(lines[i])
    ensures Parsed(SplitLines(Join(lines) + "\n")) == Parsed(lines)
  {
    var text := Join(lines);
    assert text + "\n" + "" == text + "\n";
    SplitAt(text, "");
    BlankLineSaysNothing(SplitLines(text));
    if lines == [] {
      BlankLineSaysNothing([]);
      assert [] + [""] == [""];
    } else {
      SplitJoin(lines);
    }
  }

  /** What comes back when every printed line is clean. */
  lemma ComesBack(d: Dict, order: seq<string>)
    requires CleanLines(Kept(d, order))
    ensures Parsed(SplitLines(Join(LinesOf(d, order)) + "\n")) == AllRecovered(Kept(d, order))
  {
    PrintedLines(d, order);
    EndOfFile(LinesOf(d, order));
  }

  /** Parsing what was printed gives back the printed entries exactly when every key is trimmed, has
      no colon, line break or leading '#', and every value has no line break and is either quoted by
      the printer or trimmed and not in single quotes. The key order may repeat keys. */
  lemma RoundTripExactly(d: Dict, order: seq<string>)
    ensures Parsed(SplitLines(Join(LinesOf(d, order)) + "\n")) == Kept(d, order)
       <==> forall k :: k in Kept(d, order) ==> KeyOk(k) && ValueOk(d[k])
  {
    var content, kept := Join(LinesOf(d, order)) + "\n", Kept(d, order);
    var back := Parsed(SplitLines(content));
    LinesHaveNoNewline(content);
    ParsedShape(SplitLines(content));
    if CleanLines(kept) {
      ComesBack(d, order);
      SameExactly(kept);
    }
  }

  lemma SameExactly(kept: Dict)
    requires CleanLines(kept)
    ensures AllRecovered(kept) == kept <==> forall k :: k in kept ==> KeyOk(k) && ValueOk(kept[k])
  {
    forall k | k in kept ensures Recovered(kept[k]) == kept[k] <==> ValueOk(kept[k]) {
      ComesBackExactly(kept[k]);
    }
    if AllRecovered(kept) == kept {
      forall k | k in kept ensures Recovered(kept[k]) == kept[k] {
        assert AllRecovered(kept)[k] == kept[k];
      }
    }
  }
}
