/** Text comparison as SQLite does it: binary order, and LIKE with an escape character. */
module Search {
  /** Byte-wise text order (UTF-8 keeps code point order). */
  predicate Leq(a: string, b: string) {
    if a == "" then true
    else if b == "" then false
    else if a[0] != b[0] then a[0] < b[0]
    else Leq(a[1..], b[1..])
  }

  /** Texts of equal length are ordered by their first parts, then by the rest. */
  lemma {:induction false} LeqSplit(a: string, x: string, b: string, y: string)
    requires |a| == |b|
    ensures Leq(a + x, b + y) <==> if a == b then Leq(x, y) else Leq(a, b)
  {
    if a == "" {
      assert a + x == x && b + y == y;
    } else {
      assert (a + x)[1..] == a[1..] + x && (b + y)[1..] == b[1..] + y;
      LeqSplit(a[1..], x, b[1..], y);
      assert a == [a[0]] + a[1..] && b == [b[0]] + b[1..];
    }
  }

  lemma {:induction false} LeqSelf(a: string)
    ensures Leq(a, a)
  {
    if a != "" {
      LeqSelf(a[1..]);
    }
  }

  lemma LeqByDay(a: string, x: string, b: string, y: string)
    requires |a| == |b| && Leq(x, y)
    ensures Leq(a + x, b + y) <==> Leq(a, b)
  {
    LeqSplit(a, x, b, y);
    LeqSelf(a);
  }

  function Fold(c: char): char {
    if 'A' <= c <= 'Z' then c + 32 as char else c
  }

  /** Equal up to the case of ASCII letters. */
  predicate Same(a: string, b: string) {
    |a| == |b| && forall i :: 0 <= i < |a| ==> Fold(a[i]) == Fold(b[i])
  }

  /** text LIKE pattern ESCAPE '\' */
  predicate Like(pattern: string, text: string)
    decreases |pattern|
  {
    if pattern == "" then text == ""
    else if pattern[0] == '%' then exists k :: 0 <= k <= |text| && Like(pattern[1..], text[k..])
    else if pattern[0] == '\\' then
      |pattern| > 1 && text != "" && Fold(pattern[1]) == Fold(text[0]) && Like(pattern[2..], text[1..])
    else text != "" && (pattern[0] == '_' || Fold(pattern[0]) == Fold(text[0])) && Like(pattern[1..], text[1..])
  }

  /** A backslash before every % and _. */
  function Escape(s: string): string {
    if s == "" then ""
    else (if s[0] == '%' || s[0] == '_' then ['\\', s[0]] else [s[0]]) + Escape(s[1..])
  }

  function Pattern(s: string): string { "%" + Escape(s) + "%" }

  predicate OccursAt(s: string, text: string, i: nat) {
    i + |s| <= |text| && Same(text[i..i + |s|], s)
  }

  /** `s` occurs in `text`, up to the case of ASCII letters. */
  predicate Occurs(s: string, text: string) {
    exists i :: 0 <= i <= |text| && OccursAt(s, text, i)
  }

  // ---------------------------------------------------------------- inputs without a backslash

  lemma EscapeHead(s: string, rest: string)
    requires s != ""
    ensures Escape(s) + rest == (if s[0] == '%' || s[0] == '_' then ['\\', s[0]] else [s[0]]) + (Escape(s[1..]) + rest)
  {
  }

  /** An escaped input matches itself, character by character. */
  lemma {:induction false} LikeEscaped(s: string, rest: string, text: string)
    requires '\\' !in s
    ensures Like(Escape(s) + rest, text) <==> OccursAt(s, text, 0) && Like(rest, text[|s|..])
  {
    if s == "" {
      assert Escape(s) + rest == rest && text[0..] == text;
    } else {
      EscapeHead(s, rest);
      var tail := Escape(s[1..]) + rest;
      if s[0] == '%' || s[0] == '_' {
        assert (Escape(s) + rest)[2..] == tail;
      } else {
        assert (Escape(s) + rest)[1..] == tail;
      }
      if text != "" {
        LikeEscaped(s[1..], rest, text[1..]);
        SameHead(s, text);
        assert |s| <= |text| ==> text[1..][|s| - 1..] == text[|s|..];
      }
    }
  }

  lemma SameHead(s: string, text: string)
    requires s != "" && text != ""
    ensures OccursAt(s, text, 0) <==> Fold(s[0]) == Fold(text[0]) && OccursAt(s[1..], text[1..], 0)
  {
    if |s| <= |text| {
      assert text[0..|s|] == [text[0]] + text[1..][0..|s| - 1];
      if Same(text[0..|s|], s) {
        forall i | 0 <= i < |s| - 1 ensures Fold(text[1..][0..|s| - 1][i]) == Fold(s[1..][i]) {
          assert Fold(text[0..|s|][i + 1]) == Fold(s[i + 1]);
        }
        assert Fold(text[0..|s|][0]) == Fold(s[0]);
      }
      if Fold(s[0]) == Fold(text[0]) && OccursAt(s[1..], text[1..], 0) {
        forall i | 0 <= i < |s| ensures Fold(text[0..|s|][i]) == Fold(s[i]) {
          if i > 0 {
            assert Fold(text[1..][0..|s| - 1][i - 1]) == Fold(s[1..][i - 1]);
          }
        }
      }
    }
  }

  lemma AnyEnding(text: string)
    ensures Like("%", text)
  {
    assert Like("%"[1..], text[|text|..]);
  }

  lemma LikeFindsText(s: string, text: string)
    requires '\\' !in s
    ensures Like(Pattern(s), text) <==> Occurs(s, text)
  {
    var inner := Escape(s) + "%";
    assert Pattern(s) == "%" + inner;
    assert Pattern(s)[1..] == inner;
    forall k | 0 <= k <= |text| ensures Like(inner, text[k..]) <==> OccursAt(s, text, k) {
      LikeEscaped(s, "%", text[k..]);
      if k + |s| <= |text| {
        AnyEnding(text[k..][|s|..]);
        assert text[k..][0..|s|] == text[k..k + |s|];
      }
    }
  }

  // ---------------------------------------------------------------- inputs with a backslash

  /** A text that Escape(s) followed by % matches, in which a backslash of `s` goes missing. */
  function Impostor(s: string): string {
    if s == "" then ""
    else if s[0] != '\\' then [s[0]] + Impostor(s[1..])
    else if |s| == 1 then "%"
    else if s[1] == '%' then "\\" + Impostor(s[2..])
    else if s[1] == '_' then "\\x" + Impostor(s[2..])
    else [s[1]] + Impostor(s[2..])
  }

  lemma EscapePair(s: string)
    requires |s| >= 2 && s[0] == '\\'
    ensures Escape(s) == (if s[1] == '%' || s[1] == '_' then ['\\', '\\', s[1]] else ['\\', s[1]]) + Escape(s[2..])
  {
    assert s[1..][1..] == s[2..];
  }

  lemma LikeLiteral(c: char, pattern: string, text: string)
    requires Like(pattern, text)
    ensures Like(['\\', c] + pattern, [c] + text)
    ensures c != '%' && c != '\\' ==> Like([c] + pattern, [c] + text)
  {
    assert (['\\', c] + pattern)[2..] == pattern && ([c] + pattern)[1..] == pattern && ([c] + text)[1..] == text;
  }

  lemma LikeWild(c: char, pattern: string, text: string)
    requires Like(pattern, text)
    ensures Like(['_'] + pattern, [c] + text) && Like(['%'] + pattern, text)
  {
    assert (['_'] + pattern)[1..] == pattern && (['%'] + pattern)[1..] == pattern && ([c] + text)[1..] == text;
    assert text[0..] == text;
  }

  lemma {:induction false} ImpostorMatches(s: string)
    ensures Like(Escape(s) + "%", Impostor(s))
  {
    if s == "" {
      AnyEnding("");
      assert Escape(s) + "%" == "%";
    } else if s[0] != '\\' {
      ImpostorMatches(s[1..]);
      EscapeHead(s, "%");
      LikeLiteral(s[0], Escape(s[1..]) + "%", Impostor(s[1..]));
    } else if |s| == 1 {
      assert Escape(s) + "%" == ['\\', '%'] + "" by { assert Escape(s[1..]) == ""; }
      LikeLiteral('%', "", "");
    } else {
      ImpostorMatchesPair(s);
    }
  }

  lemma BackslashThenPercent(pattern: string, text: string)
    requires Like(pattern, text)
    ensures Like(['\\', '\\', '%'] + pattern, ['\\'] + text)
  {
    LikeWild('x', pattern, text);
    LikeLiteral('\\', ['%'] + pattern, text);
    assert ['\\', '\\'] + (['%'] + pattern) == ['\\', '\\', '%'] + pattern;
  }

  lemma BackslashThenUnderscore(pattern: string, text: string)
    requires Like(pattern, text)
    ensures Like(['\\', '\\', '_'] + pattern, ['\\', 'x'] + text)
  {
    LikeWild('x', pattern, text);
    LikeLiteral('\\', ['_'] + pattern, ['x'] + text);
    assert ['\\', '\\'] + (['_'] + pattern) == ['\\', '\\', '_'] + pattern;
    assert ['\\'] + (['x'] + text) == ['\\', 'x'] + text;
  }

  lemma {:induction false} ImpostorMatchesPair(s: string)
    requires |s| >= 2 && s[0] == '\\'
    ensures Like(Escape(s) + "%", Impostor(s))
    decreases s, 0
  {
    var rest, text := Escape(s[2..]) + "%", Impostor(s[2..]);
    ImpostorMatches(s[2..]);
    EscapePair(s);
    if s[1] == '%' {
      BackslashThenPercent(rest, text);
      assert Escape(s) + "%" == ['\\', '\\', '%'] + rest;
    } else if s[1] == '_' {
      BackslashThenUnderscore(rest, text);
      assert Escape(s) + "%" == ['\\', '\\', '_'] + rest;
    } else {
      LikeLiteral(s[1], rest, text);
      assert Escape(s) + "%" == ['\\', s[1]] + rest;
    }
  }

  lemma {:induction false} ImpostorDiffers(s: string)
    ensures |Impostor(s)| <= |s|
    ensures '\\' in s && |Impostor(s)| == |s| ==> !Same(Impostor(s), s)
  {
    if s != "" {
      if s[0] != '\\' {
        ImpostorDiffers(s[1..]);
        var t := Impostor(s[1..]);
        if Same([s[0]] + t, s) {
          forall i | 0 <= i < |t| ensures Fold(t[i]) == Fold(s[1..][i]) {
            assert Fold(([s[0]] + t)[i + 1]) == Fold(s[i + 1]);
          }
        }
      } else if |s| >= 2 {
        ImpostorDiffers(s[2..]);
        if s[1] == '_' {
          assert Fold(Impostor(s)[1]) != Fold(s[1]);
        }
      } else {
        assert Fold(Impostor(s)[0]) != Fold(s[0]);
      }
    }
  }

  /** The escaping makes LIKE a literal search exactly for the inputs without a backslash. */
  lemma LiteralSearchExactly(s: string)
    ensures (forall text :: Like(Pattern(s), text) <==> Occurs(s, text)) <==> '\\' !in s
  {
    if '\\' !in s {
      forall text ensures Like(Pattern(s), text) <==> Occurs(s, text) {
        LikeFindsText(s, text);
      }
    } else {
      var text := Impostor(s);
      ImpostorMatches(s);
      ImpostorDiffers(s);
      LikeWild('x', Escape(s) + "%", text);
      assert Pattern(s) == ['%'] + (Escape(s) + "%");
      assert |text| == |s| ==> text[0..|s|] == text;
      assert Like(Pattern(s), text) && !Occurs(s, text);
    }
  }
}
