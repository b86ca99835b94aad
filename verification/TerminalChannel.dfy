/** The browser's end of one session: two promise queues, each running one job at a time, around
    the counters of the session. */
module TerminalChannel {
  import opened Prelude
  import opened Crypto
  import opened Channel
  import opened Transfer
  import opened Remount

  function ChunkMessages(buffer: Bytes): seq<Plain> {
    seq(SliceCount(|buffer|), i requires 0 <= i < SliceCount(|buffer|) => Plain(FilePart, Slice(buffer, i)))
  }

  /** The messages of one upload, in the order startImageTransfer queues them. */
  function UploadMessages(start: Bytes, buffer: Bytes, end: Bytes): seq<Plain> {
    [Plain(FilePart, start)] + ChunkMessages(buffer) + [Plain(FilePart, end)]
  }

  /** The dropped or pasted file, and the two limits the settings may override. */
  datatype ImageFile = ImageFile(mime: string, buffer: Bytes)

  const DefaultTypes: seq<string> := ["image/png", "image/jpeg"]

  predicate MayUpload(file: ImageFile, types: Option<seq<string>>, maxSizeMB: Option<nat>) {
    && file.mime in (if types.Some? then types.value else DefaultTypes)
    && |file.buffer| <= (if maxSizeMB.Some? then maxSizeMB.value else 10) * 1024 * 1024
  }

  class TerminalView {
    var keys: Option<(Key, Key)>  // (keyB2A, keyA2B)
    var sendCounter: nat
    var recvCounter: nat
    var sendQueue: seq<Plain>
    var sending: Option<Sending>
    var recvQueue: seq<Envelope>
    var receiving: Option<Receiving>
    var shown: seq<Plain>
    var leftOver: seq<(Key, Sending)>  // encryptions under way when their terminal was torn down

    function Sender(): BrowserSend
      reads this
    {
      BrowserSend(if keys.Some? then Some(keys.value.0) else None, sendCounter, sendQueue, sending)
    }

    function Receiver(): BrowserRecv
      reads this
    {
      BrowserRecv(if keys.Some? then Some(keys.value.1) else None, recvCounter, recvQueue, receiving, shown)
    }

    constructor ()
      ensures keys == None && sendCounter == recvCounter == 0
      ensures sendQueue == [] && recvQueue == [] && sending == None && receiving == None && shown == [] && leftOver == []
    {
      keys, sendCounter, recvCounter := None, 0, 0;
      sendQueue, recvQueue, sending, receiving, shown, leftOver := [], [], None, None, [], [];
    }

    /** The encryptions left over when the session object is given up: the one under way goes on. */
    function LeftWith(): seq<(Key, Sending)>
      reads this
    {
      leftOver + if keys.Some? && sending.Some? then [(keys.value.0, sending.value)] else []
    }

    /** A new session object: encryptions and decryptions of an earlier one no longer move its counters. */
    method EstablishKeys(keyB2A: Key, keyA2B: Key)
      modifies this`keys, this`sendCounter, this`recvCounter, this`sending, this`receiving, this`leftOver
      ensures keys == Some((keyB2A, keyA2B)) && Sender() == Established(old(Sender()), keyB2A)
      ensures Receiver() == old(Receiver()).(key := Some(keyA2B), counter := 0, inflight := None)
      ensures leftOver == old(LeftWith())
    {
      leftOver := LeftWith();
      keys, sendCounter, recvCounter := Some((keyB2A, keyA2B)), 0, 0;
      sending, receiving := None, None;
    }

    /** The effect's cleanup: the queues go with the closure that held them, and the next terminal is a
        new one. An encryption under way goes on, under the key and counter it was started with. */
    method Unmount()
      modifies this
      ensures Sender() == Unmounted && Receiver() == BrowserRecv(None, 0, [], None, [])
      ensures leftOver == old(LeftWith())
    {
      leftOver := LeftWith();
      keys, sendCounter, recvCounter := None, 0, 0;
      sendQueue, recvQueue, sending, receiving, shown := [], [], None, None, [];
    }

    /** It ends: its message is still sent, and only the counter of its own session object moves. */
    method FinishLeftOver() returns (out: Option<Envelope>)
      modifies this`leftOver
      ensures old(leftOver) == [] ==> out == None && leftOver == []
      ensures old(leftOver) != [] ==>
                && leftOver == old(leftOver)[1..]
                && out == Some(Seal(old(leftOver)[0].0, DirectionB2A, old(leftOver)[0].1.counter, old(leftOver)[0].1.p))
      ensures Sender() == old(Sender())
    {
      if leftOver == [] {
        return None;
      }
      var (key, job) := leftOver[0];
      leftOver := leftOver[1..];
      return Some(Envelope(job.p.kind, Encrypt(key, job.p.bytes, DirectionB2A, job.counter)));
    }

    method QueueEncryptedSend(p: Plain)
      modifies this`sendQueue
      ensures Sender() == QueueSend(old(Sender()), p)
    {
      sendQueue := sendQueue + [p];
    }

    /** The next job of sendQueue runs up to its first await. */
    method BeginEncrypt()
      modifies this`sendQueue, this`sending
      ensures Sender() == BeginSend(old(Sender()))
    {
      if sending.Some? || sendQueue == [] {
        return;
      }
      var p := sendQueue[0];
      sendQueue := sendQueue[1..];
      if keys.Some? {
        sending := Some(Sending(p, sendCounter));
      }
    }

    /** The awaited encryption is done: the counter moves, the message goes out. */
    method FinishEncrypt() returns (out: Option<Envelope>)
      modifies this`sending, this`sendCounter
      ensures (Sender(), out) == FinishSend(old(Sender()))
    {
      if sending.None? || keys.None? {
        return None;
      }
      var job := sending.value;
      var payload := Encrypt(keys.value.0, job.p.bytes, DirectionB2A, job.counter);
      sendCounter := NextNumber(sendCounter);
      sending := None;
      return Some(Envelope(job.p.kind, payload));
    }

    method QueueIncoming(e: Envelope)
      modifies this`recvQueue
      ensures Receiver() == QueueDecrypt(old(Receiver()), e)
    {
      recvQueue := recvQueue + [e];
    }

    /** The next job of recvQueue runs up to its first await; without keys it is rejected. */
    method BeginReceive()
      modifies this`recvQueue, this`receiving
      ensures Receiver() == BeginDecrypt(old(Receiver()))
    {
      if receiving.Some? || recvQueue == [] {
        return;
      }
      if keys.Some? {
        receiving := Some(Receiving(recvQueue[0], recvCounter));
      }
      recvQueue := recvQueue[1..];
    }

    method FinishReceive()
      modifies this`receiving, this`recvCounter, this`shown
      ensures Receiver() == FinishDecrypt(old(Receiver()))
    {
      if receiving.None? {
        return;
      }
      var job := receiving.value;
      receiving := None;
      if keys.None? {
        return;
      }
      var plain := Decrypt(keys.value.1, job.env.data, DirectionA2B, job.counter);
      if plain.Some? {
        recvCounter := NextNumber(recvCounter);
        shown := shown + [Plain(job.env.kind, plain.value)];
      }
    }

    method StartImageTransfer(file: ImageFile, types: Option<seq<string>>, maxSizeMB: Option<nat>, start: Bytes, end: Bytes)
      modifies this`sendQueue
      ensures sendQueue == old(sendQueue)
                         + if keys.Some? && MayUpload(file, types, maxSizeMB) then UploadMessages(start, file.buffer, end) else []
    {
      if keys.None? {
        return;
      }
      if file.mime !in (if types.Some? then types.value else DefaultTypes) {
        return;
      }
      if |file.buffer| > (if maxSizeMB.Some? then maxSizeMB.value else 10) * 1024 * 1024 {
        return;
      }
      QueueUpload(start, file.buffer, end);
    }

    method QueueUpload(start: Bytes, buffer: Bytes, end: Bytes)
      modifies this`sendQueue
      ensures sendQueue == old(sendQueue) + UploadMessages(start, buffer, end)
    {
      var totalChunks := (|buffer| + CHUNK_SIZE - 1) / CHUNK_SIZE;
      QueueEncryptedSend(Plain(FilePart, start));
      ghost var chunks := ChunkMessages(buffer);
      var i := 0;
      while i < totalChunks
        invariant 0 <= i <= totalChunks == |chunks|
        invariant sendQueue == old(sendQueue) + ([Plain(FilePart, start)] + chunks[..i])
      {
        var first := i * CHUNK_SIZE;
        var chunk := buffer[first..if first + CHUNK_SIZE < |buffer| then first + CHUNK_SIZE else |buffer|];
        QueueEncryptedSend(Plain(FilePart, chunk));
        assert chunks[..i + 1] == chunks[..i] + [Plain(FilePart, chunk)];
        i := i + 1;
      }
      assert chunks[..i] == chunks;
      QueueEncryptedSend(Plain(FilePart, end));
    }
  }

  // ---------------------------------------------------------------- what an upload is

  /** The bytes of these messages, one after the other. */
  function BytesOf(messages: seq<Plain>): Bytes {
    if messages == [] then [] else BytesOf(messages[..|messages| - 1]) + messages[|messages| - 1].bytes
  }

  lemma {:induction false} ChunksUpTo(buffer: Bytes, n: nat)
    requires n <= SliceCount(|buffer|)
    ensures BytesOf(ChunkMessages(buffer)[..n]) == buffer[..SliceEnd(n, |buffer|)]
  {
    if n > 0 {
      ChunksUpTo(buffer, n - 1);
      var chunks := ChunkMessages(buffer);
      assert chunks[..n][..n - 1] == chunks[..n - 1] && chunks[..n][n - 1] == Plain(FilePart, Slice(buffer, n - 1));
      SliceExtends(buffer, n - 1);
    }
  }

  /** An upload is its start, then pieces of at most 32 KB that together are the file, then its end. */
  lemma UploadIsWhole(start: Bytes, buffer: Bytes, end: Bytes, m: seq<Plain>)
    requires m == UploadMessages(start, buffer, end)
    ensures |m| >= 2 && m[0] == Plain(FilePart, start) && m[|m| - 1] == Plain(FilePart, end)
    ensures BytesOf(m[1..|m| - 1]) == buffer
    ensures forall i :: 0 < i < |m| - 1 ==> m[i].kind == FilePart && 0 < |m[i].bytes| <= 32_768
  {
    var chunks := ChunkMessages(buffer);
    assert m[1..|m| - 1] == chunks && chunks[..|chunks|] == chunks;
    ChunksUpTo(buffer, |chunks|);
    AllSlicesCover(|buffer|);
    assert buffer[..|buffer|] == buffer;
    forall i | 0 < i < |m| - 1 ensures m[i].kind == FilePart && 0 < |m[i].bytes| <= 32_768 {
      assert m[i] == chunks[i - 1];
      SliceExtends(buffer, i - 1);
    }
  }

  /** A PNG or a JPEG, or one of the types of the setting; and at most 10 MB, or the setting's size. */
  lemma MayUploadExactly(file: ImageFile, types: Option<seq<string>>, maxSizeMB: Option<nat>)
    ensures MayUpload(file, types, maxSizeMB)
       <==> && (if types.Some? then file.mime in types.value else file.mime == "image/png" || file.mime == "image/jpeg")
            && |file.buffer| <= 1_048_576 * if maxSizeMB.Some? then maxSizeMB.value else 10
  {
  }

  // ---------------------------------------------------------------- images the agent refuses

  /** The agent's first message of the upload of `buffer`, and what its start says. */
  predicate Announces(w: World, start: Bytes, buffer: Bytes) {
    w.metadata(start) == Some(Metadata(|buffer|, SliceCount(|buffer|)))
  }

  /** With nothing pending, the agent refuses an upload exactly when the file is empty or over 10 MB. */
  lemma RefusedExactly(st: SessionState, buffer: Bytes)
    requires st.pending == map[]
    ensures StartProblem(st, Metadata(|buffer|, SliceCount(|buffer|))).Some? <==> |buffer| == 0 || |buffer| > MAX_TRANSFER_SIZE
  {
    AllSlicesCover(|buffer|);
    assert |st.pending| == 0;
  }

  /** The browser lets through files the agent refuses: an empty one always, one over 10 MB when the
      setting allows more. After the start, the next message of such an upload is dropped undecrypted,
      and the agent opens nothing and types nothing of all that follows in order. */
  lemma RefusedImageIsFinal(st: SessionState, tid: string, file: ImageFile, start: Bytes, w: World, next: SessionEvent,
                            later: seq<SessionEvent>, es: seq<SessionEvent>, after: SessionState)
    requires st.recvCounter + 2 + |later| < TwoTo64 && st.pending == map[] && Announces(w, start, file.buffer)
    requires |file.buffer| == 0 || |file.buffer| > MAX_TRANSFER_SIZE
    requires (next.TransferChunk? || next.TransferEnd?) && next.tid == tid
    requires es == [TransferStart(tid, NextSealed(st, start), w)] + [next] + later
    requires InOrder(st.keyB2A, es, st.recvCounter) && after == SessionRun(st, es)
    ensures after.recvCounter == st.recvCounter + 1 && after.typed == st.typed
  {
    RefusedExactly(st, file.buffer);
    RefusedUploadIsFinal(st, tid, start, Metadata(|file.buffer|, SliceCount(|file.buffer|)), w, next, later);
  }

  /** An empty PNG passes the browser's checks and is two messages. */
  lemma EmptyImagePasses(start: Bytes, end: Bytes)
    ensures MayUpload(ImageFile("image/png", []), None, None)
    ensures UploadMessages(start, [], end) == [Plain(FilePart, start), Plain(FilePart, end)]
  {
    assert "image/png" == DefaultTypes[0];
  }

  /** The three messages an empty image and some typing after it become, sealed from the agent's counter on. */
  function EmptyImageThenTyping(st: SessionState, tid: string, start: Bytes, end: Bytes, w: World, typed: Bytes): seq<SessionEvent> {
    [TransferStart(tid, NextSealed(st, start), w)]
    + [TransferEnd(tid, Some(Encrypt(st.keyB2A, end, DirectionB2A, st.recvCounter + 1)), w)]
    + [PtyInput(1, Some(Encrypt(st.keyB2A, typed, DirectionB2A, st.recvCounter + 2)))]
  }

  lemma EmptyImageInOrder(st: SessionState, tid: string, start: Bytes, end: Bytes, w: World, typed: Bytes)
    ensures InOrder(st.keyB2A, EmptyImageThenTyping(st, tid, start, end, w, typed), st.recvCounter)
  {
    ThreeInOrder(st.keyB2A, TransferStart(tid, NextSealed(st, start), w), start,
                 TransferEnd(tid, Some(Encrypt(st.keyB2A, end, DirectionB2A, st.recvCounter + 1)), w), end,
                 PtyInput(1, Some(Encrypt(st.keyB2A, typed, DirectionB2A, st.recvCounter + 2))), typed, st.recvCounter);
  }

  /** The witness: of these three messages, delivered in order, the agent opens one, and what was typed
      is lost. */
  lemma EmptyImageIsFinal(st: SessionState, tid: string, start: Bytes, end: Bytes, w: World, typed: Bytes, after: SessionState)
    requires st.recvCounter + 3 < TwoTo64 && st.pending == map[] && Announces(w, start, [])
    requires after == SessionRun(st, EmptyImageThenTyping(st, tid, start, end, w, typed))
    ensures after.recvCounter == st.recvCounter + 1 && after.typed == st.typed
  {
    var next := TransferEnd(tid, Some(Encrypt(st.keyB2A, end, DirectionB2A, st.recvCounter + 1)), w);
    var input := PtyInput(1, Some(Encrypt(st.keyB2A, typed, DirectionB2A, st.recvCounter + 2)));
    EmptyImageInOrder(st, tid, start, end, w, typed);
    RefusedImageIsFinal(st, tid, ImageFile("image/png", []), start, w, next, [input],
                        EmptyImageThenTyping(st, tid, start, end, w, typed), after);
  }

  lemma ThreeInOrder(key: Key, a: SessionEvent, p: Bytes, b: SessionEvent, q: Bytes, c: SessionEvent, r: Bytes, first: nat)
    requires HasPayload(a) && HasPayload(b) && HasPayload(c)
    requires a.data == Some(Encrypt(key, p, DirectionB2A, first)) && b.data == Some(Encrypt(key, q, DirectionB2A, first + 1))
    requires c.data == Some(Encrypt(key, r, DirectionB2A, first + 2))
    ensures InOrder(key, [a] + [b] + [c], first)
  {
    OnePayload(key, [], a, first);
    assert [] + [a] == [a] && Payloads([]) == 0 && InOrder(key, [], first);
    OnePayload(key, [a], b, first);
    OnePayload(key, [a] + [b], c, first);
    assert SealedAt(key, a, first) && SealedAt(key, b, first + 1) && SealedAt(key, c, first + 2);
  }

  lemma OnePayload(key: Key, es: seq<SessionEvent>, e: SessionEvent, first: nat)
    requires HasPayload(e)
    ensures Payloads(es + [e]) == Payloads(es) + 1
    ensures InOrder(key, es + [e], first) <==> InOrder(key, es, first) && SealedAt(key, e, first + Payloads(es))
  {
    assert (es + [e])[..|es|] == es;
  }
}
