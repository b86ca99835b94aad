/** What a configuration text says, line by line, as a grammar, and which line counts for a key. */
module YamlObserved {
  import opened Prelude
  import opened Yaml

  predicate Blank(s: string) {
    forall i :: 0 <= i < |s| ==> IsBlank(s[i])
  }

  /** No blank at either end. */
  predicate Tight(s: string) {
    s != "" ==> !IsBlank(s[0]) && !IsBlank(s[|s| - 1])
  }

  /** The value without one pair of equal quotes around it. */
  predicate Bare(raw: string, v: string) {
    if |raw| >= 2 && raw[0] == raw[|raw| - 1] && (raw[0] as int == 34 || raw[0] as int == 39)
    then raw == [raw[0]] + v + [raw[0]] else v == raw
  }

  /** The parts of a line: blanks, the key, blanks, a colon, blanks, the value as written, blanks. */
  datatype Parts = Parts(indent: string, pad: string, gap: string, raw: string, rest: string)

  predicate Reads(line: string, k: string, v: string, p: Parts) {
    && line == p.indent + (k + p.pad + ":" + p.gap + p.raw) + p.rest
    && Blank(p.indent) && Blank(p.pad) && Blank(p.gap) && Blank(p.rest)
    && Tight(k) && ':' !in k && (k != "" ==> k[0] != '#') && (k == "" ==> p.pad == "")
    && Tight(p.raw) && (p.raw == "" ==> p.gap == "") && Bare(p.raw, v)
  }

  /** The line says that `k` is `v`. */
  ghost predicate Says(line: string, k: string, v: string) {
    exists p: Parts :: Reads(line, k, v, p)
  }

  // ---------------------------------------------------------------- trimming

  lemma {:induction false} BlankTrims(s: string)
    requires Blank(s)
    ensures TrimRight(s) == "" && Trim(s) == ""
  {
    if s != "" {
      BlankTrims(s[..|s| - 1]);
    }
  }

  lemma {:induction false} LeftTrims(l: string, t: string)
    requires Blank(l) && Tight(t)
    ensures TrimLeft(l + t) == t
  {
    if l == "" {
      assert l + t == t;
    } else {
      assert (l + t)[0] == l[0] && (l + t)[1..] == l[1..] + t;
      LeftTrims(l[1..], t);
    }
  }

  lemma TrimsTo(l: string, t: string, r: string)
    requires Blank(l) && Blank(r) && Tight(t)
    ensures Trim(l + t + r) == t
  {
    if t == "" {
      BlankTrims(l + t + r);
    } else {
      TrimRightAfter(l + t, r);
      BlankTrims(r);
      assert l + t + "" == l + t;
      LeftTrims(l, t);
    }
  }

  lemma {:induction false} RightSplit(s: string) returns (r: string)
    ensures s == TrimRight(s) + r && Blank(r)
  {
    if s != "" && IsBlank(s[|s| - 1]) {
      var r' := RightSplit(s[..|s| - 1]);
      r := r' + [s[|s| - 1]];
      assert TrimRight(s) + r == (TrimRight(s) + r') + [s[|s| - 1]];
    } else {
      r := "";
    }
  }

  lemma {:induction false} LeftSplit(s: string) returns (l: string)
    ensures s == l + TrimLeft(s) && Blank(l)
  {
    if s != "" && IsBlank(s[0]) {
      var l' := LeftSplit(s[1..]);
      l := [s[0]] + l';
      assert l + TrimLeft(s) == [s[0]] + (l' + TrimLeft(s[1..]));
    } else {
      l := "";
    }
  }

  lemma TrimSplit(s: string) returns (l: string, r: string)
    ensures s == l + Trim(s) + r && Blank(l) && Blank(r) && Tight(Trim(s))
  {
    r := RightSplit(s);
    l := LeftSplit(TrimRight(s));
    TrimEnds(s);
  }

  // ---------------------------------------------------------------- one line

  lemma UnquotedIsBare(raw: string, v: string)
    ensures Bare(raw, v) <==> v == Unquoted(raw)
  {
    if Wrapped(raw, '"') || Wrapped(raw, '\'') {
      assert raw == [raw[0]] + raw[1..|raw| - 1] + [raw[0]];
      if Bare(raw, v) {
        assert ([raw[0]] + v + [raw[0]])[1..|raw| - 1] == v;
      }
    }
  }

  lemma BodyIsTight(k: string, pad: string, gap: string, raw: string)
    requires Tight(k) && Tight(raw) && (k == "" ==> pad == "") && (raw == "" ==> gap == "")
    ensures var body := k + pad + ":" + gap + raw;
            body != "" && Tight(body) && body[0] == if k == "" then ':' else k[0]
  {
  }

  lemma ReadsIsEntry(line: string, k: string, v: string, p: Parts)
    requires Reads(line, k, v, p)
    ensures EntryOf(line) == Some((k, v))
  {
    var head, tail := k + p.pad, p.gap + p.raw;
    FiveParts(k, p.pad, p.gap, p.raw);
    BodyIsTight(k, p.pad, p.gap, p.raw);
    TrimsTo(p.indent, k + p.pad + ":" + p.gap + p.raw, p.rest);
    FirstColon(head, tail);
    TrimsTo("", k, p.pad);
    assert "" + k + p.pad == head;
    TrimsTo(p.gap, p.raw, "");
    assert p.gap + p.raw + "" == tail;
    UnquotedIsBare(p.raw, v);
    EntryAtColon(line, head, tail, k, p.raw);
  }

  lemma EntryAtColon(line: string, head: string, tail: string, k: string, raw: string)
    requires Trim(line) == head + ":" + tail && FirstIndex(head + ":" + tail, ':') == |head|
    requires (head + ":" + tail)[0] != '#' && Trim(head) == k && Trim(tail) == raw
    ensures EntryOf(line) == Some((k, Unquoted(raw)))
  {
    var t := head + ":" + tail;
    assert t[..|head|] == head && t[|head| + 1..] == tail;
  }

  lemma FirstOf(l: string, rest: string)
    requires l != ""
    ensures (l + rest)[0] == l[0]
  {
  }

  lemma LastOf(rest: string, r: string)
    requires r != ""
    ensures (rest + r)[|rest + r| - 1] == r[|r| - 1]
  {
  }

  lemma NoBlankFirst(l: string, rest: string)
    requires Blank(l) && (l + rest != "" ==> !IsBlank((l + rest)[0]))
    ensures l == ""
  {
    if l != "" { FirstOf(l, rest); }
  }

  lemma NoBlankLast(rest: string, r: string)
    requires Blank(r) && (rest + r != "" ==> !IsBlank((rest + r)[|rest + r| - 1]))
    ensures r == ""
  {
    if r != "" { LastOf(rest, r); }
  }

  /** The key's side of the colon starts with its own first character. */
  lemma HeadParts(head: string) returns (pad: string)
    requires head != "" ==> !IsBlank(head[0])
    ensures head == Trim(head) + pad && Blank(pad) && Tight(Trim(head)) && (Trim(head) == "" ==> pad == "")
  {
    var l;
    l, pad := TrimSplit(head);
    assert head == l + (Trim(head) + pad);
    NoBlankFirst(l, Trim(head) + pad);
    if Trim(head) == "" {
      NoBlankFirst(pad, "");
    }
  }

  lemma TailParts(tail: string) returns (gap: string)
    requires tail != "" ==> !IsBlank(tail[|tail| - 1])
    ensures tail == gap + Trim(tail) && Blank(gap) && Tight(Trim(tail)) && (Trim(tail) == "" ==> gap == "")
  {
    var r;
    gap, r := TrimSplit(tail);
    NoBlankLast(gap + Trim(tail), r);
    if Trim(tail) == "" {
      NoBlankLast("", gap);
    }
  }

  lemma FiveParts(k: string, pad: string, gap: string, raw: string)
    ensures (k + pad) + ":" + (gap + raw) == k + pad + ":" + gap + raw
  {
  }

  lemma Assembled(line: string, t: string, head: string, tail: string, k: string, v: string, p: Parts)
    requires line == p.indent + t + p.rest && t == head + ":" + tail && head == k + p.pad && tail == p.gap + p.raw
    requires Blank(p.indent) && Blank(p.pad) && Blank(p.gap) && Blank(p.rest)
    requires Tight(k) && ':' !in k && (k != "" ==> k[0] != '#') && (k == "" ==> p.pad == "")
    requires Tight(p.raw) && (p.raw == "" ==> p.gap == "") && v == Unquoted(p.raw)
    ensures Reads(line, k, v, p)
  {
    FiveParts(k, p.pad, p.gap, p.raw);
    UnquotedIsBare(p.raw, v);
  }

  lemma AroundIndex(t: string, i: nat)
    requires i < |t|
    ensures t == t[..i] + [t[i]] + t[i + 1..] && t[..i] <= t
  {
  }

  lemma AroundColon(t: string, i: nat)
    requires i < |t| && t[i] == ':'
    ensures t == t[..i] + ":" + t[i + 1..] && t[..i] <= t
  {
    AroundIndex(t, i);
    assert [t[i]] == ":";
  }

  lemma EntryReads(line: string, k: string, v: string) returns (p: Parts)
    requires EntryOf(line) == Some((k, v))
    ensures Reads(line, k, v, p)
  {
    var t := Trim(line);
    var i := FirstIndex(t, ':');
    var indent, rest := TrimSplit(line);
    AroundColon(t, i);
    var head, tail := t[..i], t[i + 1..];
    var pad := HeadParts(head);
    var gap := TailParts(tail);
    p := Parts(indent, pad, gap, Trim(tail), rest);
    KeyOfHead(head, k, pad, t);
    Assembled(line, t, head, tail, k, v, p);
  }

  lemma KeyOfHead(head: string, k: string, pad: string, t: string)
    requires head == k + pad && ':' !in head && head <= t && t != "" && t[0] != '#'
    ensures ':' !in k && (k != "" ==> k[0] != '#')
  {
    assert forall j :: 0 <= j < |k| ==> k[j] == head[j];
    if k != "" {
      assert t[0] == head[0];
    }
  }

  /** A line has an entry exactly when it reads as one in the grammar, and then that entry. */
  lemma SaysExactly(line: string, k: string, v: string)
    ensures EntryOf(line) == Some((k, v)) <==> Says(line, k, v)
  {
    if EntryOf(line) == Some((k, v)) {
      var p := EntryReads(line, k, v);
    }
    if p: Parts :| Reads(line, k, v, p) {
      ReadsIsEntry(line, k, v, p);
    }
  }

  // ---------------------------------------------------------------- which line counts

  /** Line `i` says that `k` is `v`, and no later line says anything of `k`. */
  ghost predicate LastWord(lines: seq<string>, i: nat, k: string, v: string) {
    i < |lines| && Says(lines[i], k, v) && forall j: nat, w: string :: i < j < |lines| ==> !Says(lines[j], k, w)
  }

  lemma LastWordSnoc(lines: seq<string>, last: string, i: nat, k: string, v: string)
    requires LastWord(lines, i, k, v) && forall w :: !Says(last, k, w)
    ensures LastWord(lines + [last], i, k, v)
  {
  }

  /** A key is in the dictionary exactly when some line says something of it, and then with what the last
      such line says. */
  lemma {:induction false} LaterLinesWin(lines: seq<string>, k: string) returns (i: nat)
    ensures k in Parsed(lines) ==> LastWord(lines, i, k, Parsed(lines)[k])
    ensures k !in Parsed(lines) ==> forall j: nat, w: string :: j < |lines| ==> !Says(lines[j], k, w)
  {
    i := 0;
    if lines != [] {
      var n := |lines| - 1;
      var e := EntryOf(lines[n]);
      assert lines == lines[..n] + [lines[n]];
      forall w ensures Says(lines[n], k, w) <==> e == Some((k, w)) {
        SaysExactly(lines[n], k, w);
      }
      i := LaterLinesWin(lines[..n], k);
      if e.Some? && e.value.0 == k {
        i := n;
        assert Says(lines[n], k, e.value.1);
      } else {
        forall w ensures !Says(lines[n], k, w) {}
        if k in Parsed(lines) {
          LastWordSnoc(lines[..n], lines[n], i, k, Parsed(lines)[k]);
        }
      }
    }
  }

  // ---------------------------------------------------------------- what is printed

  /** The keys that have a line: those of the order with a value that is not empty, in that order. */
  function PrintedKeys(d: Dict, order: seq<string>): seq<string> {
    if order == [] then []
    else (if order[0] in d && |d[order[0]]| > 0 then [order[0]] else []) + PrintedKeys(d, order[1..])
  }

  predicate NeedsQuotes(v: string) {
    exists i :: 0 <= i < |v| && (v[i] as int == 34 || v[i] as int == 35 || v[i] as int == 58)
  }

  lemma QuotesNeeded(v: string)
    ensures NeedsQuotes(v) <==> Special(v)
  {
    if i :| 0 <= i < |v| && (v[i] as int == 34 || v[i] as int == 35 || v[i] as int == 58) {
      assert v[i] == '"' || v[i] == '#' || v[i] == ':';
    }
    if Special(v) {
      var i :| 0 <= i < |v| && (v[i] == '"' || v[i] == '#' || v[i] == ':');
      assert v[i] as int == 34 || v[i] as int == 35 || v[i] as int == 58;
    }
  }

  lemma {:induction false} PrintedKeysSnoc(d: Dict, order: seq<string>, k: string)
    ensures PrintedKeys(d, order + [k]) == PrintedKeys(d, order) + if k in d && |d[k]| > 0 then [k] else []
  {
    if order == [] {
      assert [] + [k] == [k] && [k][1..] == [];
    } else {
      assert (order + [k])[0] == order[0] && (order + [k])[1..] == order[1..] + [k];
      PrintedKeysSnoc(d, order[1..], k);
    }
  }

  /** One line for each printed key, in order: the key, a colon, a space, and the value, in double quotes
      when it holds a colon, a number sign or a double quote. */
  lemma {:induction false} PrintsInOrder(d: Dict, order: seq<string>)
    ensures var keys, lines := PrintedKeys(d, order), LinesOf(d, order);
            && |lines| == |keys|
            && forall i :: 0 <= i < |keys| ==>
                 && keys[i] in d
                 && lines[i] == keys[i] + ": " + if NeedsQuotes(d[keys[i]]) then "\"" + d[keys[i]] + "\"" else d[keys[i]]
  {
    if order != [] {
      var init, k := order[..|order| - 1], order[|order| - 1];
      PrintsInOrder(d, init);
      assert order == init + [k];
      PrintedKeysSnoc(d, init, k);
      if k in d {
        QuotesNeeded(d[k]);
      }
    }
  }
}
