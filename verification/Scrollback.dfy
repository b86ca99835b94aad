/** The agent's circular scrollback buffer. `history` is every byte ever written; the buffer always
    holds exactly its last `size` bytes. */
module Scrollback {
  import opened Prelude
  import opened Crypto
  import opened Channel

  /** Keeping the last n after each write is keeping the last n of everything. */
  lemma LastOfLast(h: Bytes, d: Bytes, n: nat)
    ensures Last(Last(h, n) + d, n) == Last(h + d, n)
  {
    if |h| > n {
      var t := h[|h| - n..];
      if |d| > 0 {
        assert (t + d)[|t + d| - n..] == (h + d)[|h + d| - n..];
      } else {
        assert t + d == t && h + d == h;
      }
    }
  }

  /** Oldest first: up to `count` before the first wrap, afterwards from the write position around. */
  function StoredIn(b: Bytes, write: nat, count: nat): Bytes
    requires count <= |b| && write <= |b|
  {
    if count < |b| then b[..count] else b[write..] + b[..write]
  }

  lemma Dropped(y: Bytes, rest: Bytes)
    ensures (y + rest)[|y|..] == rest
  {
  }

  lemma Reassociate(y: Bytes, z: Bytes, x: Bytes, data: Bytes)
    ensures y + z + x + data == y + (z + (x + data))
  {
  }

  /** A full buffer `x + data + z` whose oldest byte is the first of `z`. */
  lemma ReadFromRest(x: Bytes, data: Bytes, z: Bytes, w: nat)
    requires w == if z == [] then 0 else |x| + |data|
    ensures StoredIn(x + data + z, w, |x + data + z|) == z + (x + data)
  {
    var b := x + data + z;
    if z == [] {
      assert b[0..] + b[..0] == x + data;
    } else {
      assert b[w..] == z && b[..w] == x + data;
    }
  }

  /** A write up to `end` into a buffer that was full. */
  lemma OneCopyWhenFull(b: Bytes, write: nat, data: Bytes, end: nat, w: nat)
    requires write < |b| && |data| < |b| && end == write + |data| <= |b| && w == if end == |b| then 0 else end
    ensures StoredIn(b[..write] + data + b[end..], w, |b|) == Last(StoredIn(b, write, |b|) + data, |b|)
  {
    var x, y, z := b[..write], b[write..end], b[end..];
    assert b[write..] == y + z;
    ReadFromRest(x, data, z, w);
    Reassociate(y, z, x, data);
    Dropped(y, z + (x + data));
  }

  /** A write up to `end` into a buffer that was not. */
  lemma OneCopyWhenFilling(b: Bytes, write: nat, data: Bytes, end: nat, w: nat)
    requires write < |b| && |data| < |b| && end == write + |data| <= |b| && w == if end == |b| then 0 else end
    ensures StoredIn(b[..write] + data + b[end..], w, end) == Last(StoredIn(b, write, write) + data, |b|)
  {
    var after := b[..write] + data + b[end..];
    assert after[..end] == b[..write] + data;
    if end == |b| {
      assert after[0..] + after[..0] == after && b[end..] == [];
    }
  }

  /** A write that does not pass the end of the buffer. */
  lemma StoredAfterOneCopy(b: Bytes, write: nat, count: nat, data: Bytes, end: nat, w: nat, c: nat)
    requires write < |b| && count <= |b| && (count < |b| ==> write == count) && |data| < |b|
    requires end == write + |data| <= |b| && w == (if end == |b| then 0 else end)
    requires c == if count + |data| < |b| then count + |data| else |b|
    ensures |b[..write] + data + b[end..]| == |b|
    ensures StoredIn(b[..write] + data + b[end..], w, c) == Last(StoredIn(b, write, count) + data, |b|)
  {
    if count == |b| {
      OneCopyWhenFull(b, write, data, end, w);
    } else {
      OneCopyWhenFilling(b, write, data, end, w);
    }
  }

  /** A write that continues at the start of the buffer leaves the old bytes it spared, then `data`. */
  lemma StoredAroundEnd(b: Bytes, write: nat, data: Bytes, first: nat, w: nat)
    requires write < |b| && |data| < |b| && first == |b| - write && first < |data| && w == |data| - first
    ensures |data[first..] + b[w..write] + data[..first]| == |b|
    ensures StoredIn(data[first..] + b[w..write] + data[..first], w, |b|) == b[w..write] + data
  {
    var after := data[first..] + b[w..write] + data[..first];
    assert after[..w] == data[first..];
    assert after[w..] == b[w..write] + data[..first];
    assert data[..first] + data[first..] == data;
  }

  lemma LastWhenFull(b: Bytes, write: nat, data: Bytes, w: nat)
    requires write < |b| && |data| < |b| < write + |data| && w == write + |data| - |b|
    ensures Last(StoredIn(b, write, |b|) + data, |b|) == b[w..write] + data
  {
    var was := b[write..] + b[..write];
    assert was[|data|..] == b[w..write];
    assert (was + data)[|data|..] == was[|data|..] + data;
  }

  lemma LastWhenFilling(b: Bytes, write: nat, data: Bytes, w: nat)
    requires write < |b| && |data| < |b| < write + |data| && w == write + |data| - |b|
    ensures Last(StoredIn(b, write, write) + data, |b|) == b[w..write] + data
  {
    var was := b[..write];
    assert was[w..] == b[w..write];
    assert (was + data)[w..] == was[w..] + data;
  }

  lemma LastAroundEnd(b: Bytes, write: nat, count: nat, data: Bytes, w: nat)
    requires write < |b| && count <= |b| && (count < |b| ==> write == count)
    requires |data| < |b| < write + |data| && w == write + |data| - |b|
    ensures Last(StoredIn(b, write, count) + data, |b|) == b[w..write] + data
  {
    if count == |b| {
      LastWhenFull(b, write, data, w);
    } else {
      LastWhenFilling(b, write, data, w);
    }
  }

  lemma StoredAfterTwoCopies(b: Bytes, write: nat, count: nat, data: Bytes, first: nat, w: nat)
    requires write < |b| && count <= |b| && (count < |b| ==> write == count)
    requires |data| < |b| < write + |data| && first == |b| - write && w == |data| - first
    ensures |data[first..] + b[w..write] + data[..first]| == |b|
    ensures StoredIn(data[first..] + b[w..write] + data[..first], w, |b|) == Last(StoredIn(b, write, count) + data, |b|)
  {
    StoredAroundEnd(b, write, data, first, w);
    LastAroundEnd(b, write, count, data, w);
  }

  /** `data` laid into `b` from `write` on, continuing at the start. */
  function Spread(b: Bytes, write: nat, data: Bytes): Bytes
    requires write < |b| && |data| < |b|
  {
    var first := |b| - write;
    if |data| <= first then b[..write] + data + b[write + |data|..]
    else data[first..] + b[|data| - first..write] + data[..first]
  }

  lemma SpreadOnce(b: Bytes, write: nat, count: nat, data: Bytes, w: nat, c: nat)
    requires write < |b| && count <= |b| && (count < |b| ==> write == count) && |data| < |b|
    requires write + |data| <= |b| && w == (if write + |data| == |b| then 0 else write + |data|)
    requires c == if count + |data| < |b| then count + |data| else |b|
    ensures |Spread(b, write, data)| == |b|
    ensures StoredIn(Spread(b, write, data), w, c) == Last(StoredIn(b, write, count) + data, |b|)
  {
    StoredAfterOneCopy(b, write, count, data, write + |data|, w, c);
  }

  lemma SpreadAround(b: Bytes, write: nat, data: Bytes, first: nat, w: nat)
    requires write < |b| && |data| < |b| < write + |data| && first == |b| - write && w == |data| - first
    ensures Spread(b, write, data) == data[first..] + b[w..write] + data[..first]
  {
  }

  lemma SpreadTwice(b: Bytes, write: nat, count: nat, data: Bytes, w: nat)
    requires write < |b| && count <= |b| && (count < |b| ==> write == count) && |data| < |b|
    requires write + |data| > |b| && w == write + |data| - |b|
    ensures |Spread(b, write, data)| == |b|
    ensures StoredIn(Spread(b, write, data), w, |b|) == Last(StoredIn(b, write, count) + data, |b|)
  {
    var first := |b| - write;
    SpreadAround(b, write, data, first, w);
    StoredAfterTwoCopies(b, write, count, data, first, w);
  }

  lemma StoredAfterSpread(b: Bytes, write: nat, count: nat, data: Bytes, w: nat, c: nat)
    requires write < |b| && count <= |b| && (count < |b| ==> write == count) && |data| < |b|
    requires w == if write + |data| < |b| then write + |data| else write + |data| - |b|
    requires c == if count + |data| < |b| then count + |data| else |b|
    ensures |Spread(b, write, data)| == |b|
    ensures StoredIn(Spread(b, write, data), w, c) == Last(StoredIn(b, write, count) + data, |b|)
  {
    if write + |data| <= |b| {
      SpreadOnce(b, write, count, data, w, c);
    } else {
      SpreadTwice(b, write, count, data, w);
    }
  }

  lemma StoredAfterLargeWrite(h: Bytes, d: Bytes, n: nat)
    requires |d| >= n
    ensures StoredIn(d[|d| - n..], 0, n) == Last(h + d, n)
  {
    var tail := d[|d| - n..];
    assert tail[0..] + tail[..0] == tail;
    if |h + d| > n {
      assert (h + d)[|h + d| - n..] == tail;
    }
  }

  lemma Spliced(was: Bytes, data: Bytes, write: nat, first: nat)
    requires write + first == |was| && first < |data| < |was|
    ensures var mid := was[..write] + data[..first] + was[write + first..];
            && |mid| == |was|
            && mid[..0] + data[first..] + mid[|data| - first..] == data[first..] + was[|data| - first..write] + data[..first]
  {
    var mid := was[..write] + data[..first] + was[write + first..];
    assert mid[|data| - first..] == was[|data| - first..write] + data[..first];
  }

  lemma WrapOnce(write: nat, n: nat, size: nat)
    requires write < size && n < size
    ensures (write + n) % size == if write + n < size then write + n else write + n - size
  {
    if write + n >= size {
      DivUnique(write + n, size, 1, write + n - size);
    } else {
      DivUnique(write + n, size, 0, write + n);
    }
  }

  /** What a write shorter than the buffer leaves in it. */
  lemma ContentsAfter(b: Bytes, write: nat, count: nat, data: Bytes, history: Bytes, w: nat, c: nat)
    requires write < |b| && count <= |b| && (count < |b| ==> write == count) && |data| < |b|
    requires w == if write + |data| < |b| then write + |data| else write + |data| - |b|
    requires c == if count + |data| < |b| then count + |data| else |b|
    requires StoredIn(b, write, count) == Last(history, |b|)
    ensures |Spread(b, write, data)| == |b|
    ensures StoredIn(Spread(b, write, data), w, c) == Last(history + data, |b|)
  {
    LastOfLast(history, data, |b|);
    StoredAfterSpread(b, write, count, data, w, c);
  }

  class RingBuffer {
    var buf: array<byte>
    var size: nat
    var write: nat
    var count: nat
    ghost var history: Bytes

    ghost predicate Valid()
      reads this, buf
    {
      && buf.Length == size && count <= size
      && (size == 0 ==> write == 0) && (size > 0 ==> write < size)
      && (count < size ==> write == count)
      && StoredIn(buf[..], write, count) == Last(history, size)
    }

    constructor (capacity: nat)
      ensures Valid() && fresh(buf) && size == capacity && history == []
    {
      buf := new byte[capacity](_ => 0);
      size := capacity;
      write, count, history := 0, 0, [];
    }

    method Write(data: Bytes)
      requires Valid()
      modifies this, buf
      ensures Valid() && buf == old(buf) && size == old(size)
      ensures history == old(history) + data
    {
      var n := |data|;
      if n >= size {
        KeepTail(data);
        return;
      }
      var next := Advanced(n);
      var stored := if count + n < size then count + n else size;
      ContentsAfter(buf[..], write, count, data, history, next, stored);
      CopySegments(data);
      write, count := next, stored;
      history := history + data;
    }

    method Advanced(n: nat) returns (next: nat)
      requires write < size && n < size
      ensures next == if write + n < size then write + n else write + n - size
    {
      next := (write + n) % size;
      WrapOnce(write, n, size);
    }

    /** A write of at least the whole buffer: only its tail is kept. */
    method KeepTail(data: Bytes)
      requires buf.Length == size && |data| >= size
      modifies this, buf
      ensures Valid() && buf == old(buf) && size == old(size)
      ensures history == old(history) + data
    {
      var n := |data|;
      StoredAfterLargeWrite(history, data, size);
      CopyInto(buf, 0, data[n - size..]);
      assert buf[..] == data[n - size..];
      write, count, history := 0, size, history + data;
    }

    /** The bulk copy in at most two segments; the indexes move afterwards. */
    method CopySegments(data: Bytes)
      requires buf.Length == size && write < size && |data| < size
      modifies buf
      ensures buf[..] == Spread(old(buf[..]), write, data)
    {
      var n, first := |data|, size - write;
      if n <= first {
        CopyInto(buf, write, data);
      } else {
        CopyAround(data, first);
      }
    }

    method CopyAround(data: Bytes, first: nat)
      requires buf.Length == size && write < size && first == size - write && first < |data| < size
      modifies buf
      ensures buf[..] == data[first..] + old(buf[..])[|data| - first..write] + data[..first]
    {
      ghost var was := buf[..];
      CopyInto(buf, write, data[..first]);
      CopyInto(buf, 0, data[first..]);
      Spliced(was, data, write, first);
    }

    method Contents() returns (result: Bytes)
      requires Valid()
      ensures result == Last(history, size)
    {
      if count == 0 {
        return [];
      }
      var out := new byte[count](_ => 0);
      if count < size {
        CopyInto(out, 0, buf[..count]);
        assert out[..] == buf[..count];
      } else {
        var start := write;
        var firstPart := size - start;
        CopyInto(out, 0, buf[start..]);
        assert out[..firstPart] == buf[start..];
        CopyInto(out, firstPart, buf[..start]);
        assert out[..] == buf[start..] + buf[..start];
      }
      result := out[..];
    }
  }
}
