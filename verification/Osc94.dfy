/** The scanner for OSC 9;4 progress sequences: ESC ] 9 ; 4 ; state ; value terminator, with BEL or
    ST (ESC \) as terminator. OSC and ST are sections 8.3.89 and 8.3.143 of ECMA-48. */
module Osc94 {
  import opened Prelude

  const ESC: byte := 0x1b
  const RBRACKET: byte := 0x5d
  const NINE: byte := 0x39
  const SEMI: byte := 0x3b
  const FOUR: byte := 0x34
  const BEL: byte := 0x07
  const BACKSLASH: byte := 0x5c
  const ZERO: byte := 0x30
  const MAX_DIGIT: byte := 0x39

  datatype Progress = Progress(state: nat, value: nat)
  datatype Hit = Hit(info: Progress, end: nat)

  predicate Digit(b: byte) { ZERO <= b <= MAX_DIGIT }

  ghost predicate Digits(s: seq<byte>) {
    forall i :: 0 <= i < |s| ==> Digit(s[i])
  }

  function Decimal(s: seq<byte>): nat
    requires Digits(s)
  {
    if s == [] then 0 else 10 * Decimal(s[..|s| - 1]) + (s[|s| - 1] - ZERO) as nat
  }

  function Clamped(v: nat): nat { if v > 100 then 100 else v }

  // ---------------------------------------------------------------- the grammar

  const Introducer: seq<byte> := [ESC, RBRACKET, NINE, SEMI, FOUR, SEMI]

  predicate Terminator(t: seq<byte>) {
    t == [BEL] || t == [ESC, BACKSLASH]
  }

  ghost predicate Spells(s: seq<byte>, info: Progress, state: seq<byte>, value: seq<byte>, t: seq<byte>) {
    && s == Introducer + state + [SEMI] + value + t
    && state != [] && value != [] && Digits(state) && Digits(value) && Terminator(t)
    && Decimal(state) <= 4 && info == Progress(Decimal(state), Clamped(Decimal(value)))
  }

  /** `s` is one complete progress sequence that says `info`. */
  ghost predicate IsSequence(s: seq<byte>, info: Progress) {
    exists state, value, t :: Spells(s, info, state, value, t)
  }

  ghost predicate MatchesAt(data: seq<byte>, i: nat, h: Hit) {
    i <= h.end <= |data| && IsSequence(data[i..h.end], h.info)
  }

  // ---------------------------------------------------------------- one attempt

  /** The first index from `i` on that holds no digit. */
  function DigitsEnd(data: seq<byte>, i: nat): (r: nat)
    requires i <= |data|
    ensures i <= r <= |data| && Digits(data[i..r]) && (r < |data| ==> !Digit(data[r]))
    decreases |data| - i
  {
    if i < |data| && Digit(data[i]) then
      var r := DigitsEnd(data, i + 1);
      assert data[i..r] == [data[i]] + data[i + 1..r];
      r
    else i
  }

  method ParseDigits(data: seq<byte>, start: nat) returns (val: nat, i: nat)
    requires start <= |data|
    ensures i == DigitsEnd(data, start) && val == Decimal(data[start..i])
  {
    val, i := 0, start;
    while i < |data| && ZERO <= data[i] <= MAX_DIGIT
      invariant start <= i <= |data| && Digits(data[start..i])
      invariant DigitsEnd(data, start) == DigitsEnd(data, i)
      invariant val == Decimal(data[start..i])
    {
      assert data[start..i + 1][..i - start] == data[start..i];
      val := val * 10 + (data[i] - ZERO) as nat;
      i := i + 1;
    }
  }

  /** What the scanner finds at start `i`. */
  function TryAt(data: seq<byte>, i: nat): Option<Hit> {
    if i + 9 >= |data| || data[i..i + 6] != Introducer || !Digit(data[i + 6]) then None
    else
      var a := DigitsEnd(data, i + 6);
      var state := Decimal(data[i + 6..a]);
      if state > 4 || a >= |data| || data[a] != SEMI then None
      else if a + 1 >= |data| || !Digit(data[a + 1]) then None
      else
        var b := DigitsEnd(data, a + 1);
        var info := Progress(state, Clamped(Decimal(data[a + 1..b])));
        if b < |data| && data[b] == BEL then Some(Hit(info, b + 1))
        else if b + 1 < |data| && data[b] == ESC && data[b + 1] == BACKSLASH then Some(Hit(info, b + 2))
        else None
  }

  lemma DigitsEndIs(data: seq<byte>, i: nat, r: nat)
    requires i <= r <= |data| && Digits(data[i..r]) && (r < |data| ==> !Digit(data[r]))
    ensures DigitsEnd(data, i) == r
  {
    forall k | i <= k < r ensures Digit(data[k]) { assert data[i..r][k - i] == data[k]; }
    var e := DigitsEnd(data, i);
    forall k | i <= k < e ensures Digit(data[k]) { assert data[i..e][k - i] == data[k]; }
  }

  /** The bytes from `b` to the end of the match are the terminator it saw. */
  lemma TerminatorFound(data: seq<byte>, b: nat, end: nat)
    requires b < end <= |data|
    requires (end == b + 1 && data[b] == BEL) || (end == b + 2 && data[b] == ESC && data[b + 1] == BACKSLASH)
    ensures Terminator(data[b..end])
  {
    assert data[b..end] == if end == b + 1 then [data[b]] else [data[b], data[b + 1]];
  }

  lemma TryFindsMatches(data: seq<byte>, i: nat)
    ensures TryAt(data, i).Some? ==> MatchesAt(data, i, TryAt(data, i).value)
  {
    if TryAt(data, i).Some? {
      var h := TryAt(data, i).value;
      var a := DigitsEnd(data, i + 6);
      var b := DigitsEnd(data, a + 1);
      assert data[a..a + 1] == [SEMI];
      FiveParts(data, i, i + 6, a, a + 1, b, h.end);
      TerminatorFound(data, b, h.end);
      assert Spells(data[i..h.end], h.info, data[i + 6..a], data[a + 1..b], data[b..h.end]);
    }
  }

  lemma StartsWithIntroducer(data: seq<byte>, i: nat)
    ensures TryAt(data, i).Some? ==> i + 9 < |data| && data[i] == ESC && data[i + 1] == RBRACKET
  {
    if TryAt(data, i).Some? {
      assert data[i..i + 6][0] == data[i] && data[i..i + 6][1] == data[i + 1];
    }
  }

  lemma TwoParts(data: seq<byte>, a: nat, b: nat, c: nat)
    requires a <= b <= c <= |data|
    ensures data[a..c] == data[a..b] + data[b..c]
  {
  }

  lemma FiveParts(data: seq<byte>, a: nat, b: nat, c: nat, d: nat, e: nat, f: nat)
    requires a <= b <= c <= d <= e <= f <= |data|
    ensures data[a..f] == data[a..b] + data[b..c] + data[c..d] + data[d..e] + data[e..f]
  {
    TwoParts(data, a, b, c);
    TwoParts(data, a, c, d);
    TwoParts(data, a, d, e);
    TwoParts(data, a, e, f);
  }

  lemma Cut(data: seq<byte>, i: nat, j: nat, x: nat, y: nat)
    requires i <= j <= |data| && x <= y <= j - i
    ensures data[i..j][x..y] == data[i + x..i + y]
  {
    var cut, direct := data[i..j][x..y], data[i + x..i + y];
    forall k | 0 <= k < y - x ensures cut[k] == direct[k] {
      assert cut[k] == data[i..j][x + k];
    }
  }

  lemma PartsOf(s: seq<byte>, state: seq<byte>, value: seq<byte>, t: seq<byte>)
    requires s == Introducer + state + [SEMI] + value + t
    ensures var a, b := 6 + |state|, 6 + |state| + 1 + |value|;
            s[0..6] == Introducer && s[6..a] == state && s[a] == SEMI && s[a + 1..b] == value && s[b..|s|] == t
  {
  }

  /** Where the parts of a spelled sequence lie in the data. */
  lemma Layout(data: seq<byte>, i: nat, h: Hit, state: seq<byte>, value: seq<byte>, t: seq<byte>)
    requires i <= h.end <= |data| && Spells(data[i..h.end], h.info, state, value, t)
    ensures var a, b := i + 6 + |state|, i + 6 + |state| + 1 + |value|;
            && b + |t| == h.end && data[i..i + 6] == Introducer && data[i + 6..a] == state && data[a] == SEMI
            && data[a + 1..b] == value && data[b..h.end] == t
  {
    var s := data[i..h.end];
    var a, b := 6 + |state|, 6 + |state| + 1 + |value|;
    PartsOf(s, state, value, t);
    Cut(data, i, h.end, 0, 6);
    Cut(data, i, h.end, 6, a);
    Cut(data, i, h.end, a + 1, b);
    Cut(data, i, h.end, b, |s|);
  }

  lemma FoundFromLayout(data: seq<byte>, i: nat, a: nat, b: nat, end: nat)
    requires i + 6 < a < a + 1 < b < end <= |data|
    requires data[i..i + 6] == Introducer && Digits(data[i + 6..a]) && data[a] == SEMI && Digits(data[a + 1..b])
    requires Terminator(data[b..end]) && Decimal(data[i + 6..a]) <= 4
    ensures TryAt(data, i) == Some(Hit(Progress(Decimal(data[i + 6..a]), Clamped(Decimal(data[a + 1..b]))), end))
  {
    assert Digit(data[i + 6]) by { assert data[i + 6] == data[i + 6..a][0]; }
    assert Digit(data[a + 1]) by { assert data[a + 1] == data[a + 1..b][0]; }
    assert data[b] == data[b..end][0];
    DigitsEndIs(data, i + 6, a);
    DigitsEndIs(data, a + 1, b);
    if end == b + 2 {
      assert data[b + 1] == data[b..end][1];
    }
  }

  lemma MatchesAreFound(data: seq<byte>, i: nat, h: Hit)
    requires MatchesAt(data, i, h)
    ensures TryAt(data, i) == Some(h)
  {
    var state, value, t :| Spells(data[i..h.end], h.info, state, value, t);
    Layout(data, i, h, state, value, t);
    FoundFromLayout(data, i, i + 6 + |state|, i + 6 + |state| + 1 + |value|, h.end);
  }

  /** The attempt succeeds at a start exactly when a sequence of the grammar starts there. */
  lemma AttemptIsGrammar(data: seq<byte>, i: nat, h: Hit)
    ensures TryAt(data, i) == Some(h) <==> MatchesAt(data, i, h)
  {
    TryFindsMatches(data, i);
    if MatchesAt(data, i, h) {
      MatchesAreFound(data, i, h);
    }
  }

  // ---------------------------------------------------------------- the last match

  function InfoAt(data: seq<byte>, i: nat): Option<Progress> {
    if TryAt(data, i).Some? then Some(TryAt(data, i).value.info) else None
  }

  /** What each start yields. */
  function Infos(data: seq<byte>): (r: seq<Option<Progress>>)
    ensures |r| == |data|
  {
    seq(|data|, i requires 0 <= i < |data| => InfoAt(data, i))
  }

  /** The entry at the greatest index that holds anything. */
  function LastOf(found: seq<Option<Progress>>): Option<Progress> {
    if found == [] then None
    else if found[|found| - 1].Some? then found[|found| - 1]
    else LastOf(found[..|found| - 1])
  }

  function LastMatch(data: seq<byte>): Option<Progress> {
    LastOf(Infos(data))
  }

  ghost predicate AllNone(found: seq<Option<Progress>>) {
    forall k :: 0 <= k < |found| ==> found[k].None?
  }

  lemma {:induction false} LastOfIs(found: seq<Option<Progress>>)
    ensures LastOf(found).None? <==> AllNone(found)
    ensures LastOf(found).Some? ==> exists i :: 0 <= i < |found| && found[i] == LastOf(found) && AllNone(found[i + 1..])
  {
    if found != [] {
      var n := |found| - 1;
      LastOfIs(found[..n]);
      if found[n].Some? {
        assert found[n] == LastOf(found) && AllNone(found[n + 1..]);
      } else if LastOf(found[..n]).Some? {
        var i :| 0 <= i < n && found[..n][i] == LastOf(found[..n]) && AllNone(found[..n][i + 1..]);
        var tail, shorter := found[i + 1..], found[..n][i + 1..];
        forall k | 0 <= k < |tail| ensures tail[k].None? {
          if k < n - i - 1 { assert shorter[k] == tail[k]; }
        }
        assert found[i] == LastOf(found);
      }
    }
  }

  lemma {:induction false} LastOfConcat(a: seq<Option<Progress>>, b: seq<Option<Progress>>)
    ensures LastOf(a + b) == if LastOf(b).Some? then LastOf(b) else LastOf(a)
  {
    if b == [] {
      assert a + b == a;
    } else {
      LastOfConcat(a, b[..|b| - 1]);
      assert (a + b)[..|a + b| - 1] == a + b[..|b| - 1];
    }
  }

  /** Skipping starts that yield nothing changes nothing. */
  lemma NoneBetween(found: seq<Option<Progress>>, m: nat, n: nat)
    requires m <= n <= |found| && AllNone(found[m..n])
    ensures LastOf(found[..n]) == LastOf(found[..m])
  {
    LastOfConcat(found[..m], found[m..n]);
    assert found[..m] + found[m..n] == found[..n];
    LastOfIs(found[m..n]);
  }

  lemma InfoIsGrammar(data: seq<byte>, i: nat)
    ensures forall h: Hit :: MatchesAt(data, i, h) ==> InfoAt(data, i) == Some(h.info) && i < |data|
    ensures InfoAt(data, i).Some? ==> exists h: Hit :: MatchesAt(data, i, h) && h.info == InfoAt(data, i).value
  {
    StartsWithIntroducer(data, i);
    forall h: Hit | MatchesAt(data, i, h) ensures InfoAt(data, i) == Some(h.info) && i < |data| {
      AttemptIsGrammar(data, i, h);
    }
    if InfoAt(data, i).Some? {
      AttemptIsGrammar(data, i, TryAt(data, i).value);
    }
  }

  lemma FoundIsGreatest(data: seq<byte>, f: seq<Option<Progress>>, i: nat) returns (h: Hit)
    requires f == Infos(data) && i < |data| && f[i].Some? && AllNone(f[i + 1..])
    ensures MatchesAt(data, i, h) && f[i] == Some(h.info)
    ensures forall k: nat, g: Hit :: k > i ==> !MatchesAt(data, k, g)
  {
    InfoIsGrammar(data, i);
    h :| MatchesAt(data, i, h) && h.info == InfoAt(data, i).value;
    forall k: nat, g: Hit | k > i ensures !MatchesAt(data, k, g) {
      InfoIsGrammar(data, k);
      assert k < |data| ==> f[k] == f[i + 1..][k - i - 1];
    }
  }

  lemma NoneMatches(data: seq<byte>, f: seq<Option<Progress>>)
    requires f == Infos(data)
    ensures AllNone(f) <==> forall i: nat, h: Hit :: !MatchesAt(data, i, h)
  {
    forall k: nat, h: Hit ensures MatchesAt(data, k, h) ==> k < |data| && f[k].Some? {
      InfoIsGrammar(data, k);
    }
    if forall i: nat, h: Hit :: !MatchesAt(data, i, h) {
      forall k | 0 <= k < |data| ensures f[k].None? {
        InfoIsGrammar(data, k);
      }
    }
  }

  /** The result is what the sequence with the greatest start says, or null if there is no sequence. */
  lemma LastMatchIsGreatest(data: seq<byte>)
    ensures LastMatch(data).None? <==> forall i: nat, h: Hit :: !MatchesAt(data, i, h)
    ensures LastMatch(data).Some? ==>
              exists i: nat, h: Hit :: MatchesAt(data, i, h) && LastMatch(data) == Some(h.info)
                                       && forall k: nat, g: Hit :: k > i ==> !MatchesAt(data, k, g)
  {
    var f := Infos(data);
    LastOfIs(f);
    NoneMatches(data, f);
    if LastMatch(data).Some? {
      var i: nat :| i < |data| && f[i] == LastMatch(data) && AllNone(f[i + 1..]);
      var h := FoundIsGreatest(data, f, i);
    }
  }

  lemma DigitInside(data: seq<byte>, a: nat, b: nat, k: nat)
    requires a <= k < b <= |data| && Digits(data[a..b])
    ensures Digit(data[k])
  {
    assert data[a..b][k - a] == data[k];
  }

  lemma OneIntroducer(data: seq<byte>, i: nat, k: nat)
    requires i + 6 <= |data| && data[i..i + 6] == Introducer && i < k < i + 6
    ensures data[k] != ESC
  {
    assert data[i..i + 6][k - i] == data[k];
  }

  /** No sequence starts strictly inside another one, so the jump past a match loses none. */
  lemma NoneInside(data: seq<byte>, i: nat, k: nat)
    requires TryAt(data, i).Some? && i < k < TryAt(data, i).value.end
    ensures TryAt(data, k).None?
  {
    StartsWithIntroducer(data, k);
    var a := DigitsEnd(data, i + 6);
    var b := DigitsEnd(data, a + 1);
    if k < i + 6 {
      OneIntroducer(data, i, k);
    } else if k < a {
      DigitInside(data, i + 6, a, k);
    } else if a < k < b {
      DigitInside(data, a + 1, b, k);
    }
  }

  /** The scanner's attempt at an ESC with at least ten bytes left. */
  method ScanAt(data: seq<byte>, i: nat) returns (hit: Option<Hit>)
    requires i + 9 < |data| && data[i] == ESC
    ensures hit == TryAt(data, i)
  {
    assert data[i..i + 6] == [data[i], data[i + 1], data[i + 2], data[i + 3], data[i + 4], data[i + 5]];
    if data[i + 1] != RBRACKET || data[i + 2] != NINE || data[i + 3] != SEMI || data[i + 4] != FOUR || data[i + 5] != SEMI {
      return None;
    }
    var j := i + 6;
    if data[j] < ZERO || data[j] > MAX_DIGIT {
      return None;
    }
    var state, afterState := ParseDigits(data, j);
    j := afterState;
    if state > 4 || j >= |data| || data[j] != SEMI {
      return None;
    }
    j := j + 1;
    if j >= |data| || data[j] < ZERO || data[j] > MAX_DIGIT {
      return None;
    }
    var value, afterValue := ParseDigits(data, j);
    j := afterValue;
    if value > 100 {
      value := 100;
    }
    if j < |data| && data[j] == BEL {
      return Some(Hit(Progress(state, value), j + 1));
    } else if j + 1 < |data| && data[j] == ESC && data[j + 1] == BACKSLASH {
      return Some(Hit(Progress(state, value), j + 2));
    }
    return None;
  }

  method ParseOsc9_4(data: seq<byte>) returns (result: Option<Progress>)
    ensures result == LastMatch(data)
  {
    ghost var f := Infos(data);
    result := None;
    var i := 0;
    while i < |data|
      invariant 0 <= i <= |data| && result == LastOf(f[..i])
      decreases |data| - i
    {
      assert f[..i + 1] == f[..i] + [InfoAt(data, i)] && f[..i + 1][..i] == f[..i];
      if data[i] != ESC {
        StartsWithIntroducer(data, i);
        i := i + 1;
        continue;
      }
      if i + 9 >= |data| {
        NothingLate(data, i);
        NoneBetween(f, i, |data|);
        i := |data|;
        break;
      }
      var hit := ScanAt(data, i);
      if hit.Some? {
        result := Some(hit.value.info);
        SkipsNothing(data, i);
        NoneBetween(f, i + 1, hit.value.end);
        i := hit.value.end;
      } else {
        i := i + 1;
      }
    }
    assert f[..i] == f;
  }

  lemma NothingLate(data: seq<byte>, i: nat)
    requires i <= |data| <= i + 9
    ensures AllNone(Infos(data)[i..|data|])
  {
    forall k | i <= k < |data| ensures Infos(data)[k].None? {
      StartsWithIntroducer(data, k);
    }
  }

  lemma SkipsNothing(data: seq<byte>, i: nat)
    requires TryAt(data, i).Some?
    ensures i < TryAt(data, i).value.end <= |data|
    ensures AllNone(Infos(data)[i + 1..TryAt(data, i).value.end])
  {
    var end := TryAt(data, i).value.end;
    forall k | i + 1 <= k < end ensures Infos(data)[k].None? {
      NoneInside(data, i, k);
    }
  }

  // ---------------------------------------------------------------- locality and round trip

  lemma MatchShift(a: seq<byte>, b: seq<byte>, i: nat, h: Hit)
    ensures MatchesAt(a + b, |a| + i, Hit(h.info, |a| + h.end)) <==> MatchesAt(b, i, h)
  {
    if i <= h.end <= |b| {
      assert (a + b)[|a| + i..|a| + h.end] == b[i..h.end];
    }
  }

  lemma InfoOfMatch(data: seq<byte>, i: nat, h: Hit)
    requires MatchesAt(data, i, h)
    ensures InfoAt(data, i) == Some(h.info)
  {
    AttemptIsGrammar(data, i, h);
  }

  lemma MatchOfInfo(data: seq<byte>, i: nat) returns (h: Hit)
    requires InfoAt(data, i).Some?
    ensures MatchesAt(data, i, h) && InfoAt(data, i) == Some(h.info)
  {
    h := TryAt(data, i).value;
    AttemptIsGrammar(data, i, h);
  }

  /** What starts in `b` starts at the same place after a prefix. */
  lemma InfoShiftsRight(a: seq<byte>, b: seq<byte>, i: nat)
    requires InfoAt(b, i).Some?
    ensures InfoAt(a + b, |a| + i) == InfoAt(b, i)
  {
    var h := MatchOfInfo(b, i);
    MatchShift(a, b, i, h);
    InfoOfMatch(a + b, |a| + i, Hit(h.info, |a| + h.end));
  }

  lemma InfoShiftsLeft(a: seq<byte>, b: seq<byte>, i: nat)
    requires InfoAt(a + b, |a| + i).Some?
    ensures InfoAt(b, i).Some?
  {
    var g := MatchOfInfo(a + b, |a| + i);
    var h := Hit(g.info, g.end - |a|);
    assert g == Hit(h.info, |a| + h.end);
    MatchShift(a, b, i, h);
    InfoOfMatch(b, i, h);
  }

  lemma InfoShift(a: seq<byte>, b: seq<byte>, i: nat)
    ensures InfoAt(a + b, |a| + i) == InfoAt(b, i)
  {
    if InfoAt(b, i).Some? {
      InfoShiftsRight(a, b, i);
    } else if InfoAt(a + b, |a| + i).Some? {
      InfoShiftsLeft(a, b, i);
    }
  }

  lemma InfosShiftAt(a: seq<byte>, b: seq<byte>, i: nat)
    requires i < |b|
    ensures Infos(a + b)[|a| + i] == Infos(b)[i]
  {
    InfoShift(a, b, i);
  }

  lemma InfosShift(a: seq<byte>, b: seq<byte>, whole: seq<Option<Progress>>, part: seq<Option<Progress>>)
    requires whole == Infos(a + b) && part == Infos(b)
    ensures whole[|a|..] == part
  {
    forall i | 0 <= i < |b| ensures whole[|a| + i] == part[i] {
      InfosShiftAt(a, b, i);
    }
  }

  lemma LastShift(a: seq<byte>, b: seq<byte>)
    ensures LastMatch(a + b) == if LastMatch(b).Some? then LastMatch(b) else LastOf(Infos(a + b)[..|a|])
  {
    var f := Infos(a + b);
    InfosShift(a, b, f, Infos(b));
    LastOfConcat(f[..|a|], f[|a|..]);
    assert f[..|a|] + f[|a|..] == f;
  }

  /** Only what comes last counts: a result found in `b` is the result for anything before it. */
  lemma ParseIsLocal(a: seq<byte>, b: seq<byte>)
    ensures LastMatch(b).Some? ==> LastMatch(a + b) == LastMatch(b)
  {
    LastShift(a, b);
  }

  function PrintDecimal(n: nat): (s: seq<byte>)
    ensures s != [] && Digits(s) && Decimal(s) == n
  {
    if n < 10 then [ZERO + n as byte]
    else
      var s := PrintDecimal(n / 10) + [ZERO + (n % 10) as byte];
      assert s[..|s| - 1] == PrintDecimal(n / 10);
      s
  }

  function Print(state: nat, value: nat, t: seq<byte>): seq<byte> {
    Introducer + PrintDecimal(state) + [SEMI] + PrintDecimal(value) + t
  }

  lemma FirstFound(data: seq<byte>)
    requires TryAt(data, 0).Some?
    ensures |data| > 0 && LastOf(Infos(data)[..1]) == InfoAt(data, 0)
  {
    StartsWithIntroducer(data, 0);
  }

  /** A printed sequence is read back, whatever precedes it and whatever follows without a sequence of its own. */
  lemma PrintedIsParsed(p: seq<byte>, state: nat, value: nat, t: seq<byte>, q: seq<byte>)
    requires state <= 4 && Terminator(t) && LastMatch(q).None?
    ensures LastMatch(p + (Print(state, value, t) + q)) == Some(Progress(state, Clamped(value)))
  {
    var s := Print(state, value, t);
    var h := Hit(Progress(state, Clamped(value)), |s|);
    assert (s + q)[0..|s|] == s;
    assert Spells(s, h.info, PrintDecimal(state), PrintDecimal(value), t);
    MatchesAreFound(s + q, 0, h);
    SkipsNothing(s + q, 0);
    LastShift(s, q);
    NoneBetween(Infos(s + q), 1, |s|);
    FirstFound(s + q);
    ParseIsLocal(p, s + q);
  }

  /** ESC ] 9 ; 4 ; 1 ; 5 0 BEL says state 1 at 50 percent. */
  lemma HalfWay()
    ensures LastMatch([0x1b, 0x5d, 0x39, 0x3b, 0x34, 0x3b, 0x31, 0x3b, 0x35, 0x30, 0x07]) == Some(Progress(1, 50))
  {
    var s := Print(1, 50, [BEL]);
    assert PrintDecimal(5) == [0x35] && PrintDecimal(50) == [0x35, 0x30] && PrintDecimal(1) == [0x31];
    assert s == [0x1b, 0x5d, 0x39, 0x3b, 0x34, 0x3b, 0x31, 0x3b, 0x35, 0x30, 0x07];
    assert [] + (s + []) == s;
    assert LastMatch([]).None?;
    PrintedIsParsed([], 1, 50, [BEL], []);
  }
}
