/** The texts that are signed, MACed or hashed, as each side builds them. */
module Encodings {
  import opened Prelude
  import opened Crypto

  function Ascii(s: string): (r: Bytes)
    requires forall i :: 0 <= i < |s| ==> s[i] < 128 as char
    ensures |r| == |s|
  {
    seq(|s|, i requires 0 <= i < |s| => s[i] as int as byte)
  }

  /** An uncompressed P-256 point. */
  predicate PublicKey(raw: Bytes) { |raw| == 65 }

  function KeyExchangeData(agentPub: Bytes, browserPub: Bytes, sid: Bytes): Bytes {
    Ascii("rttys-e2e-keyex:") + agentPub + browserPub + sid
  }

  /** `uint32(cols)` and setUint32 keep the value modulo 2^32, also for negative sizes. */
  function ResizeData(sid: Bytes, cols: int, rows: int): Bytes {
    Ascii("pty.resize") + sid + BigEndian(cols % TwoTo32, 4) + BigEndian(rows % TwoTo32, 4)
  }

  function CloseData(sid: Bytes): Bytes {
    Ascii("pty.close") + sid
  }

  function SaltInput(browserPub: Bytes, agentPub: Bytes): Bytes {
    Ascii("browser:") + browserPub + Ascii("agent:") + agentPub
  }

  // ---------------------------------------------------------------- the agent's builders

  method BuildKeyExchangeSignData(agentPub: Bytes, browserPub: Bytes, sid: Bytes) returns (out: array<byte>)
    ensures out[..] == KeyExchangeData(agentPub, browserPub, sid)
  {
    var prefix := Ascii("rttys-e2e-keyex:");
    out := new byte[|prefix| + |agentPub| + |browserPub| + |sid|](_ => 0);
    var n := 0;
    CopyInto(out, n, prefix);
    n := n + |prefix|;
    assert out[..n] == prefix;
    CopyInto(out, n, agentPub);
    n := n + |agentPub|;
    assert out[..n] == prefix + agentPub;
    CopyInto(out, n, browserPub);
    n := n + |browserPub|;
    assert out[..n] == prefix + agentPub + browserPub;
    CopyInto(out, n, sid);
    assert out[..] == out[..n] + sid;
  }

  method BuildResizeHMACData(sid: Bytes, cols: int, rows: int) returns (out: array<byte>)
    ensures out[..] == ResizeData(sid, cols, rows)
  {
    var prefix := Ascii("pty.resize");
    out := new byte[|prefix| + |sid| + 4 + 4](_ => 0);
    CopyInto(out, 0, prefix);
    var n := |prefix|;
    assert out[..n] == prefix;
    CopyInto(out, n, sid);
    n := n + |sid|;
    assert out[..n] == prefix + sid;
    PutBigEndian(out, n, cols % TwoTo32, 4);
    assert out[..n + 4] == prefix + sid + BigEndian(cols % TwoTo32, 4);
    PutBigEndian(out, n + 4, rows % TwoTo32, 4);
    assert out[..] == out[..n + 4] + BigEndian(rows % TwoTo32, 4);
  }

  method BuildCloseHMACData(sid: Bytes) returns (out: array<byte>)
    ensures out[..] == CloseData(sid)
  {
    var prefix := Ascii("pty.close");
    out := new byte[|prefix| + |sid|](_ => 0);
    CopyInto(out, 0, prefix);
    assert out[..|prefix|] == prefix;
    CopyInto(out, |prefix|, sid);
  }

  // ---------------------------------------------------------------- the browser's builders

  lemma FlattenTwo(a: Bytes, b: Bytes)
    ensures Flatten([a, b]) == a + b
  {
    assert [a, b][..1] == [a] && [a][..0] == [];
    assert Flatten([a]) == a;
  }

  lemma FlattenThree(a: Bytes, b: Bytes, c: Bytes)
    ensures Flatten([a, b, c]) == a + b + c
  {
    FlattenTwo(a, b);
    assert [a, b, c][..2] == [a, b];
  }

  lemma FlattenFour(a: Bytes, b: Bytes, c: Bytes, d: Bytes)
    ensures Flatten([a, b, c, d]) == a + b + c + d
  {
    FlattenThree(a, b, c);
    assert [a, b, c, d][..3] == [a, b, c];
  }

  method KeyExchangeSignDataInBrowser(agentPub: Bytes, browserPub: Bytes, sid: Bytes) returns (out: array<byte>)
    ensures out[..] == KeyExchangeData(agentPub, browserPub, sid)
  {
    out := ConcatBytes([Ascii("rttys-e2e-keyex:"), agentPub, browserPub, sid]);
    FlattenFour(Ascii("rttys-e2e-keyex:"), agentPub, browserPub, sid);
  }

  method ResizeHMACDataInBrowser(sid: Bytes, cols: int, rows: int) returns (out: array<byte>)
    ensures out[..] == ResizeData(sid, cols, rows)
  {
    var colsRows := new byte[8](_ => 0);
    PutBigEndian(colsRows, 0, cols % TwoTo32, 4);
    assert colsRows[..4] == BigEndian(cols % TwoTo32, 4);
    PutBigEndian(colsRows, 4, rows % TwoTo32, 4);
    assert colsRows[..] == BigEndian(cols % TwoTo32, 4) + BigEndian(rows % TwoTo32, 4);
    out := ConcatBytes([Ascii("pty.resize"), sid, colsRows[..]]);
    FlattenThree(Ascii("pty.resize"), sid, colsRows[..]);
    assert out[..] == ResizeData(sid, cols, rows);
  }

  method CloseHMACDataInBrowser(sid: Bytes) returns (out: array<byte>)
    ensures out[..] == CloseData(sid)
  {
    out := ConcatBytes([Ascii("pty.close"), sid]);
    FlattenTwo(Ascii("pty.close"), sid);
  }

  // ---------------------------------------------------------------- what the texts determine

  lemma SplitAt(a: Bytes, x: Bytes, b: Bytes, y: Bytes)
    requires a + x == b + y && |a| == |b|
    ensures a == b && x == y
  {
    assert (a + x)[..|a|] == a && (b + y)[..|b|] == b;
    assert (a + x)[|a|..] == x && (b + y)[|b|..] == y;
  }

  /** With 65-byte keys the signed transcript determines both keys and the session. */
  lemma KeyExchangeDataDetermines(a1: Bytes, b1: Bytes, s1: Bytes, a2: Bytes, b2: Bytes, s2: Bytes)
    requires PublicKey(a1) && PublicKey(a2) && PublicKey(b1) && PublicKey(b2)
    ensures KeyExchangeData(a1, b1, s1) == KeyExchangeData(a2, b2, s2) <==> a1 == a2 && b1 == b2 && s1 == s2
  {
    if KeyExchangeData(a1, b1, s1) == KeyExchangeData(a2, b2, s2) {
      var p := Ascii("rttys-e2e-keyex:");
      SplitAt(p + a1 + b1, s1, p + a2 + b2, s2);
      SplitAt(p + a1, b1, p + a2, b2);
      SplitAt(p, a1, p, a2);
    }
  }

  lemma SaltInputDetermines(b1: Bytes, a1: Bytes, b2: Bytes, a2: Bytes)
    requires PublicKey(a1) && PublicKey(a2) && PublicKey(b1) && PublicKey(b2)
    ensures SaltInput(b1, a1) == SaltInput(b2, a2) <==> a1 == a2 && b1 == b2
  {
    if SaltInput(b1, a1) == SaltInput(b2, a2) {
      SplitAt(Ascii("browser:") + b1 + Ascii("agent:"), a1, Ascii("browser:") + b2 + Ascii("agent:"), a2);
      SplitAt(Ascii("browser:") + b1, Ascii("agent:"), Ascii("browser:") + b2, Ascii("agent:"));
      SplitAt(Ascii("browser:"), b1, Ascii("browser:"), b2);
    }
  }

  /** Resize data determines the session and both sizes modulo 2^32. */
  lemma ResizeDataDetermines(s1: Bytes, c1: int, r1: int, s2: Bytes, c2: int, r2: int)
    ensures ResizeData(s1, c1, r1) == ResizeData(s2, c2, r2)
            <==> s1 == s2 && c1 % TwoTo32 == c2 % TwoTo32 && r1 % TwoTo32 == r2 % TwoTo32
  {
    if ResizeData(s1, c1, r1) == ResizeData(s2, c2, r2) {
      var p := Ascii("pty.resize");
      var cb1, rb1, cb2, rb2 := BigEndian(c1 % TwoTo32, 4), BigEndian(r1 % TwoTo32, 4), BigEndian(c2 % TwoTo32, 4), BigEndian(r2 % TwoTo32, 4);
      assert |p + s1 + cb1| == |p + s2 + cb2|;
      SplitAt(p + s1 + cb1, rb1, p + s2 + cb2, rb2);
      SplitAt(p + s1, cb1, p + s2, cb2);
      SplitAt(p, s1, p, s2);
      assert Pow256(4) == TwoTo32;
      BigEndianInjective(c1 % TwoTo32, c2 % TwoTo32, 4);
      BigEndianInjective(r1 % TwoTo32, r2 % TwoTo32, 4);
    }
  }

  /** No text of one kind is also a text of another kind, whatever the fields. */
  lemma TextsAreDisjoint(s1: Bytes, cols: int, rows: int, s2: Bytes, agentPub: Bytes, browserPub: Bytes, s3: Bytes)
    ensures ResizeData(s1, cols, rows) != CloseData(s2)
    ensures KeyExchangeData(agentPub, browserPub, s3) != ResizeData(s1, cols, rows)
    ensures KeyExchangeData(agentPub, browserPub, s3) != CloseData(s2)
  {
    var resize, close, keyex := ResizeData(s1, cols, rows), CloseData(s2), KeyExchangeData(agentPub, browserPub, s3);
    assert resize[4] == Ascii("pty.resize")[4] == 'r' as int as byte;
    assert close[4] == Ascii("pty.close")[4] == 'c' as int as byte;
    assert resize[0] == Ascii("pty.resize")[0] == 'p' as int as byte;
    assert close[0] == Ascii("pty.close")[0] == 'p' as int as byte;
    assert keyex[0] == Ascii("rttys-e2e-keyex:")[0] == 'r' as int as byte;
  }

  lemma CloseDataDetermines(s1: Bytes, s2: Bytes)
    ensures CloseData(s1) == CloseData(s2) <==> s1 == s2
  {
    if CloseData(s1) == CloseData(s2) {
      SplitAt(Ascii("pty.close"), s1, Ascii("pty.close"), s2);
    }
  }

  // ---------------------------------------------------------------- where each field lies

  /** "rttys-e2e-keyex:", the agent's key, the browser's key, the session id. */
  lemma KeyExchangeLayout(agentPub: Bytes, browserPub: Bytes, sid: Bytes)
    requires PublicKey(agentPub) && PublicKey(browserPub)
    ensures var t := KeyExchangeData(agentPub, browserPub, sid);
            && |t| == 146 + |sid|
            && t[..16] == [114, 116, 116, 121, 115, 45, 101, 50, 101, 45, 107, 101, 121, 101, 120, 58]
            && t[16..81] == agentPub && t[81..146] == browserPub && t[146..] == sid
  {
  }

  lemma FourParts(t: Bytes, a: Bytes, b: Bytes, c: Bytes, d: Bytes, i: nat, j: nat, k: nat)
    requires t == a + b + c + d && i == |a| && j == i + |b| && k == j + |c|
    ensures |t| == k + |d| && t[..i] == a && t[i..j] == b && t[j..k] == c && t[k..] == d
  {
  }

  lemma ResizeText()
    ensures Ascii("pty.resize") == [112, 116, 121, 46, 114, 101, 115, 105, 122, 101]
  {
  }

  lemma SizeSpelled(n: nat)
    requires n < TwoTo32
    ensures Spelled(BigEndian(n % TwoTo32, 4)) == n
  {
    DivUnique(n, TwoTo32, 0, n);
    assert Pow256(4) == TwoTo32;
    BigEndianSpells(n, 4);
  }

  /** "pty.resize", the session id, columns and rows as four bytes each, most significant first. */
  lemma ResizeLayout(sid: Bytes, cols: nat, rows: nat, n: nat)
    requires cols < TwoTo32 && rows < TwoTo32 && n == 10 + |sid|
    ensures var t := ResizeData(sid, cols, rows);
            && |t| == n + 8 && t[..10] == [112, 116, 121, 46, 114, 101, 115, 105, 122, 101] && t[10..n] == sid
            && Spelled(t[n..n + 4]) == cols && Spelled(t[n + 4..]) == rows
  {
    ResizeText();
    SizeSpelled(cols);
    SizeSpelled(rows);
    FourParts(ResizeData(sid, cols, rows), Ascii("pty.resize"), sid, BigEndian(cols % TwoTo32, 4), BigEndian(rows % TwoTo32, 4),
              10, n, n + 4);
  }

  /** "pty.close", the session id. */
  lemma CloseLayout(sid: Bytes)
    ensures CloseData(sid) == [112, 116, 121, 46, 99, 108, 111, 115, 101] + sid
  {
  }

  /** "browser:", the browser's key, "agent:", the agent's key. */
  lemma SaltLayout(browserPub: Bytes, agentPub: Bytes)
    requires PublicKey(browserPub) && PublicKey(agentPub)
    ensures var t := SaltInput(browserPub, agentPub);
            && |t| == 144 && t[..8] == [98, 114, 111, 119, 115, 101, 114, 58] && t[8..73] == browserPub
            && t[73..79] == [97, 103, 101, 110, 116, 58] && t[79..] == agentPub
  {
  }
}
