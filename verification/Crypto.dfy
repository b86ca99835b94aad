/** Byte layouts of the end-to-end layer, and ideal cryptography over them.

    The layouts (nonce, signed transcript, HMAC inputs, HKDF salt) are concrete. The primitives are
    ideal: a ciphertext opens only under the key and nonce that sealed it, a shared secret is
    determined by the two public keys, a derived key by secret, salt and slot, and a signature by
    signer and text. */
module Crypto {
  import opened Prelude

  type Bytes = seq<byte>

  const DirectionB2A: byte := 0
  const DirectionA2B: byte := 1

  const TwoTo32 := 0x1_0000_0000
  const TwoTo53 := 0x20_0000_0000_0000
  const TwoTo64 := 0x1_0000_0000_0000_0000

  // ---------------------------------------------------------------- big-endian integers

  function Pow256(k: nat): nat
    ensures Pow256(k) > 0
  {
    if k == 0 then 1 else 256 * Pow256(k - 1)
  }

  /** The low `k` bytes of `n`, most significant first. */
  function BigEndian(n: nat, k: nat): (r: Bytes)
    ensures |r| == k
  {
    if k == 0 then [] else BigEndian(n / 256, k - 1) + [(n % 256) as byte]
  }

  /** The number that bytes spell, most significant first. */
  function Spelled(s: Bytes): nat {
    if s == [] then 0 else 256 * Spelled(s[..|s| - 1]) + s[|s| - 1] as nat
  }

  lemma {:induction false} BigEndianSpells(n: nat, k: nat)
    requires n < Pow256(k)
    ensures Spelled(BigEndian(n, k)) == n
  {
    if k > 0 {
      BigEndianSpells(n / 256, k - 1);
      assert BigEndian(n, k)[..k - 1] == BigEndian(n / 256, k - 1);
    }
  }

  lemma {:induction false} BigEndianInjective(m: nat, n: nat, k: nat)
    requires m < Pow256(k) && n < Pow256(k) && BigEndian(m, k) == BigEndian(n, k)
    ensures m == n
  {
    if k > 0 {
      assert BigEndian(m, k)[..k - 1] == BigEndian(m / 256, k - 1);
      assert BigEndian(n, k)[..k - 1] == BigEndian(n / 256, k - 1);
      assert BigEndian(m, k)[k - 1] == BigEndian(n, k)[k - 1];
      BigEndianInjective(m / 256, n / 256, k - 1);
    }
  }

  lemma {:induction false} BigEndianSplit(n: nat, hi: nat, lo: nat)
    ensures BigEndian(n, hi + lo) == BigEndian(Above(n, lo), hi) + BigEndian(n, lo)
  {
    if lo > 0 {
      BigEndianSplit(n / 256, hi, lo - 1);
      assert hi + lo - 1 == hi + (lo - 1);
    }
  }

  /** `n` without its low `k` bytes. */
  function Above(n: nat, k: nat): nat {
    if k == 0 then n else Above(n / 256, k - 1)
  }

  lemma Above4(n: nat)
    ensures Above(n, 4) == n / TwoTo32
  {
    assert Above(n, 4) == n / 256 / 256 / 256 / 256 by {
      assert Above(n / 256 / 256 / 256, 1) == Above(n / 256 / 256 / 256 / 256, 0);
      assert Above(n / 256 / 256, 2) == Above(n / 256 / 256 / 256, 1);
    }
  }

  lemma DivUnique(n: nat, d: nat, q: nat, r: nat)
    requires d > 0 && n == q * d + r && r < d
    ensures n / d == q && n % d == r
  {
    var e := n / d - q;
    assert e * d == r - n % d by {
      assert n == n / d * d + n % d;
      assert e * d == n / d * d - q * d;
    }
    SmallMultiple(e, d);
  }

  lemma AtLeastOnce(e: int, d: int)
    requires e >= 1 && d >= 0
    ensures e * d >= d
  {
    assert (e - 1) * d >= 0;
  }

  lemma SmallMultiple(e: int, d: int)
    requires d >= 0 && -d < e * d < d
    ensures e == 0
  {
    if e >= 1 {
      AtLeastOnce(e, d);
    } else if e <= -1 {
      AtLeastOnce(-e, d);
    }
  }

  lemma LowByte(z: nat, m: nat)
    ensures (256 * z + m) / 256 == z + m / 256 && (256 * z + m) % 256 == m % 256
  {
  }

  /** What lies above the low `k` bytes does not matter to them. */
  lemma {:induction false} BigEndianTruncates(q: nat, m: nat, k: nat)
    ensures BigEndian(q * Pow256(k) + m, k) == BigEndian(m, k)
  {
    if k > 0 {
      var p := Pow256(k - 1);
      var n := q * Pow256(k) + m;
      assert n == 256 * (q * p) + m;
      LowByte(q * p, m);
      BigEndianTruncates(q, m / 256, k - 1);
    }
  }

  lemma BigEndian32(n: nat)
    ensures BigEndian(n % TwoTo32, 4) == BigEndian(n, 4)
  {
    assert Pow256(4) == TwoTo32;
    assert n == n / TwoTo32 * Pow256(4) + n % TwoTo32;
    BigEndianTruncates(n / TwoTo32, n % TwoTo32, 4);
  }

  // ---------------------------------------------------------------- filling buffers

  /** binary.BigEndian.PutUint* and DataView.setUint*: `k` bytes of `n` at `at`, least significant last. */
  method PutBigEndian(a: array<byte>, at: nat, n: nat, k: nat)
    requires at + k <= a.Length
    modifies a
    ensures a[..] == old(a[..])[..at] + BigEndian(n, k) + old(a[..])[at + k..]
  {
    var v, i := n, k;
    while i > 0
      invariant 0 <= i <= k
      invariant BigEndian(n, k) == BigEndian(v, i) + a[at + i..at + k]
      invariant a[..at] == old(a[..at]) && a[at + k..] == old(a[at + k..])
    {
      a[at + i - 1] := (v % 256) as byte;
      assert a[at + i - 1..at + k] == [(v % 256) as byte] + a[at + i..at + k];
      assert BigEndian(v, i) == BigEndian(v / 256, i - 1) + [(v % 256) as byte];
      v, i := v / 256, i - 1;
    }
    assert a[..] == a[..at] + a[at..at + k] + a[at + k..];
  }

  /** copy(dst[at:], src) and Uint8Array.set. */
  method CopyInto(a: array<byte>, at: nat, src: Bytes)
    requires at + |src| <= a.Length
    modifies a
    ensures a[..] == old(a[..])[..at] + src + old(a[..])[at + |src|..]
  {
    var i := 0;
    while i < |src|
      invariant 0 <= i <= |src|
      invariant a[..at] == old(a[..at]) && a[at..at + i] == src[..i]
      invariant a[at + |src|..] == old(a[at + |src|..])
    {
      a[at + i] := src[i];
      assert a[at..at + i + 1] == a[at..at + i] + [src[i]];
      i := i + 1;
    }
    assert a[..] == a[..at] + a[at..at + |src|] + a[at + |src|..];
  }

  function Flatten(parts: seq<Bytes>): Bytes {
    if parts == [] then [] else Flatten(parts[..|parts| - 1]) + parts[|parts| - 1]
  }

  function TotalLength(parts: seq<Bytes>): nat {
    if parts == [] then 0 else TotalLength(parts[..|parts| - 1]) + |parts[|parts| - 1]|
  }

  lemma {:induction false} TotalLengthMonotone(parts: seq<Bytes>, i: nat)
    requires i <= |parts|
    ensures TotalLength(parts[..i]) <= TotalLength(parts) && |Flatten(parts)| == TotalLength(parts)
  {
    if parts != [] {
      var init := parts[..|parts| - 1];
      if i < |parts| {
        TotalLengthMonotone(init, i);
        assert init[..i] == parts[..i];
      } else {
        TotalLengthMonotone(init, 0);
        assert parts[..i] == parts;
      }
    }
  }

  /** The browser's concatBytes: sum the lengths, then write each array at the running offset. */
  method ConcatBytes(parts: seq<Bytes>) returns (out: array<byte>)
    ensures out[..] == Flatten(parts)
  {
    var total, i := 0, 0;
    while i < |parts|
      invariant 0 <= i <= |parts| && total == TotalLength(parts[..i])
    {
      assert parts[..i + 1][..i] == parts[..i];
      total, i := total + |parts[i]|, i + 1;
    }
    assert parts[..i] == parts;
    out := new byte[total](_ => 0);
    var offset := 0;
    i := 0;
    while i < |parts|
      invariant 0 <= i <= |parts| && offset == TotalLength(parts[..i]) <= total
      invariant out.Length == total == TotalLength(parts)
      invariant out[..offset] == Flatten(parts[..i])
    {
      assert parts[..i + 1][..i] == parts[..i];
      TotalLengthMonotone(parts, i + 1);
      ghost var before := out[..];
      CopyInto(out, offset, parts[i]);
      assert out[..offset + |parts[i]|] == before[..offset] + parts[i];
      assert before[..offset] == Flatten(parts[..i]);
      offset, i := offset + |parts[i]|, i + 1;
    }
    assert parts[..i] == parts && out[..] == out[..offset];
  }

  // ---------------------------------------------------------------- nonces

  /** direction(1) || counter(8, big-endian) || three zero bytes. */
  function Nonce(direction: byte, counter: nat): (r: Bytes)
    ensures |r| == 12
  {
    [direction] + BigEndian(counter, 8) + [0, 0, 0]
  }

  /** The agent's buildNonce; the counter is a uint64. */
  method BuildNonceGo(direction: byte, counter: nat) returns (nonce: array<byte>)
    requires counter < TwoTo64
    ensures nonce[..] == Nonce(direction, counter)
  {
    nonce := new byte[12](_ => 0);
    nonce[0] := direction;
    PutBigEndian(nonce, 1, counter, 8);
  }

  lemma TwoHalves(n: nat)
    ensures BigEndian(n / TwoTo32 % TwoTo32, 4) + BigEndian(n % TwoTo32, 4) == BigEndian(n, 8)
  {
    BigEndian32(n / TwoTo32);
    BigEndian32(n);
    Above4(n);
    BigEndianSplit(n, 4, 4);
  }

  lemma TwoWrites(d: byte, hi: Bytes, lo: Bytes, start: Bytes, half: Bytes, done: Bytes)
    requires |start| == 12 && start[0] == d && (forall i :: 1 <= i < 12 ==> start[i] == 0) && |hi| == 4 && |lo| == 4
    requires half == start[..1] + hi + start[5..] && done == half[..5] + lo + half[9..]
    ensures done == [d] + (hi + lo) + [0, 0, 0]
  {
    assert start[..1] == [d] && half[..5] == [d] + hi;
    assert half[9..] == start[9..] == [0, 0, 0];
    assert [d] + hi + lo == [d] + (hi + lo);
  }

  /** The browser's buildNonce; the counter is a Number and is written as two 32-bit halves. */
  method BuildNonceBrowser(direction: nat, counter: nat) returns (nonce: array<byte>)
    requires counter <= TwoTo53
    ensures nonce[..] == Nonce((direction % 256) as byte, counter)
  {
    nonce := new byte[12](_ => 0);
    nonce[0] := (direction % 256) as byte;
    ghost var start := nonce[..];
    PutBigEndian(nonce, 1, counter / TwoTo32 % TwoTo32, 4);
    ghost var half := nonce[..];
    PutBigEndian(nonce, 5, counter % TwoTo32, 4);
    TwoWrites((direction % 256) as byte, BigEndian(counter / TwoTo32 % TwoTo32, 4), BigEndian(counter % TwoTo32, 4), start, half, nonce[..]);
    TwoHalves(counter);
  }

  /** Where each field of a nonce lies: the direction, the counter most significant byte first, zeros. */
  lemma NonceLayout(direction: byte, counter: nat)
    requires counter < TwoTo64
    ensures var n := Nonce(direction, counter);
            |n| == 12 && n[0] == direction && Spelled(n[1..9]) == counter && n[9..] == [0, 0, 0]
  {
    assert Pow256(8) == TwoTo64;
    BigEndianSpells(counter, 8);
    assert Nonce(direction, counter)[1..9] == BigEndian(counter, 8);
  }

  lemma NonceInjective(d1: byte, c1: nat, d2: byte, c2: nat)
    requires c1 < TwoTo64 && c2 < TwoTo64
    ensures Nonce(d1, c1) == Nonce(d2, c2) <==> d1 == d2 && c1 == c2
  {
    if Nonce(d1, c1) == Nonce(d2, c2) {
      assert Nonce(d1, c1)[0] == d1 && Nonce(d2, c2)[0] == d2;
      assert Nonce(d1, c1)[1..9] == BigEndian(c1, 8) && Nonce(d2, c2)[1..9] == BigEndian(c2, 8);
      assert Pow256(8) == TwoTo64;
      BigEndianInjective(c1, c2, 8);
    }
  }

  /** atomic.AddUint64 wraps. */
  function NextUint64(c: nat): nat { (c + 1) % TwoTo64 }

  /** `counter++` on a Number: 2^53 + 1 is not representable and rounds back to 2^53. */
  function NextNumber(c: nat): nat { if c < TwoTo53 then c + 1 else c }

  function CounterOfSendGo(i: nat): nat {
    if i == 0 then 0 else NextUint64(CounterOfSendGo(i - 1))
  }

  function CounterOfSendBrowser(i: nat): nat {
    if i == 0 then 0 else NextNumber(CounterOfSendBrowser(i - 1))
  }

  lemma WrapsAfter(i: nat)
    ensures NextUint64(i % TwoTo64) == (i + 1) % TwoTo64
  {
  }

  lemma {:induction false} CountersOfSends(i: nat)
    ensures CounterOfSendGo(i) == i % TwoTo64
    ensures CounterOfSendBrowser(i) == if i < TwoTo53 then i else TwoTo53
  {
    if i > 0 {
      CountersOfSends(i - 1);
      WrapsAfter(i - 1);
    }
  }

  ghost predicate AllDiffer<T>(f: nat -> T, n: nat) {
    forall i: nat, j: nat :: i < j < n ==> f(i) != f(j)
  }

  lemma NoWrap(i: nat)
    requires i < TwoTo64
    ensures i % TwoTo64 == i
  {
  }

  lemma GoCounterBeforeWrap(i: nat)
    requires i < TwoTo64
    ensures CounterOfSendGo(i) == i
  {
    CountersOfSends(i);
    NoWrap(i);
  }

  lemma GoCounterAtWrap(wrap: nat)
    requires wrap == TwoTo64
    ensures CounterOfSendGo(wrap) == CounterOfSendGo(0)
  {
    CountersOfSends(wrap);
  }

  lemma GoCountersDistinctExactly(n: nat, wrap: nat)
    requires wrap == TwoTo64
    ensures AllDiffer(CounterOfSendGo, n) <==> n <= wrap
  {
    if n > wrap {
      GoCounterAtWrap(wrap);
    } else {
      forall i: nat, j: nat | i < j < n ensures CounterOfSendGo(i) != CounterOfSendGo(j) {
        GoCounterBeforeWrap(i);
        GoCounterBeforeWrap(j);
      }
    }
  }

  lemma BrowserCountersDistinctExactly(n: nat, stuck: nat)
    requires stuck == TwoTo53
    ensures AllDiffer(CounterOfSendBrowser, n) <==> n <= TwoTo53 + 1
  {
    if n > TwoTo53 + 1 {
      CountersOfSends(stuck);
      CountersOfSends(stuck + 1);
      assert CounterOfSendBrowser(stuck) == CounterOfSendBrowser(stuck + 1);
    } else {
      forall i: nat, j: nat | i < j < n ensures CounterOfSendBrowser(i) != CounterOfSendBrowser(j) {
        CountersOfSends(i);
        CountersOfSends(j);
      }
    }
  }

  function NonceOfSendGo(i: nat): Bytes { Nonce(DirectionA2B, CounterOfSendGo(i)) }
  function NonceOfSendBrowser(i: nat): Bytes { Nonce(DirectionB2A, CounterOfSendBrowser(i)) }

  lemma NoncesFollowCounters(direction: byte, counter: nat -> nat, nonce: nat -> Bytes, n: nat)
    requires forall i: nat :: counter(i) < TwoTo64 && nonce(i) == Nonce(direction, counter(i))
    ensures AllDiffer(nonce, n) <==> AllDiffer(counter, n)
  {
    forall i: nat, j: nat ensures nonce(i) != nonce(j) <==> counter(i) != counter(j) {
      NonceInjective(direction, counter(i), direction, counter(j));
    }
  }

  lemma CountersFit(i: nat)
    ensures CounterOfSendGo(i) < TwoTo64 && CounterOfSendBrowser(i) < TwoTo64
  {
    CountersOfSends(i);
  }

  lemma GoNoncesDistinctExactly(n: nat)
    ensures AllDiffer(NonceOfSendGo, n) <==> n <= TwoTo64
  {
    forall i: nat ensures CounterOfSendGo(i) < TwoTo64 {
      CountersFit(i);
    }
    NoncesFollowCounters(DirectionA2B, CounterOfSendGo, NonceOfSendGo, n);
    GoCountersDistinctExactly(n, TwoTo64);
  }

  lemma BrowserNoncesDistinctExactly(n: nat)
    ensures AllDiffer(NonceOfSendBrowser, n) <==> n <= TwoTo53 + 1
  {
    forall i: nat ensures CounterOfSendBrowser(i) < TwoTo64 {
      CountersFit(i);
    }
    NoncesFollowCounters(DirectionB2A, CounterOfSendBrowser, NonceOfSendBrowser, n);
    BrowserCountersDistinctExactly(n, TwoTo53);
  }

  /** A sender's first `n` nonces are all different exactly up to the point where its counter fails to
      advance: 2^64 messages on the agent, 2^53 + 1 in the browser. */
  lemma NoncesDistinctExactly(n: nat)
    ensures AllDiffer(NonceOfSendGo, n) <==> n <= TwoTo64
    ensures AllDiffer(NonceOfSendBrowser, n) <==> n <= TwoTo53 + 1
  {
    GoNoncesDistinctExactly(n);
    BrowserNoncesDistinctExactly(n);
  }

}
