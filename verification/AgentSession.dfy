/** The agent's session object: counters, pending transfers and scrollback, updated in place by the
    handlers of the read loop and by the PTY reader. */
module AgentSession {
  import opened Prelude
  import opened Crypto
  import opened Channel
  import opened Transfer
  import opened Scrollback

  function OutputEvents(outputs: seq<Bytes>): seq<SessionEvent> {
    seq(|outputs|, i requires 0 <= i < |outputs| => PtyOutput(outputs[i]))
  }

  lemma OneMoreOutput(st: SessionState, history: Bytes, outputs: seq<Bytes>, i: nat)
    requires i < |outputs|
    ensures history + Flatten(outputs[..i + 1]) == history + Flatten(outputs[..i]) + outputs[i]
    ensures SessionRun(st, OutputEvents(outputs[..i + 1])) == OnPtyOutput(SessionRun(st, OutputEvents(outputs[..i])), outputs[i])
  {
    assert outputs[..i + 1][..i] == outputs[..i];
    assert OutputEvents(outputs[..i + 1])[..i] == OutputEvents(outputs[..i]);
  }

  class Session {
    const keyB2A: Key
    const keyA2B: Key
    const scrollback: RingBuffer
    var sendCounter: nat
    var recvCounter: nat
    var pendingTransfers: map<string, Pending>
    var typed: Bytes
    var sent: seq<Outgoing>

    function Snapshot(): SessionState
      reads this
    {
      SessionState(keyB2A, keyA2B, sendCounter, recvCounter, pendingTransfers, typed, sent)
    }

    ghost predicate Valid()
      reads this, scrollback, scrollback.buf
    {
      scrollback.Valid() && scrollback.size == ScrollbackBytes
    }

    constructor (keyB2A: Key, keyA2B: Key)
      ensures Valid() && fresh(scrollback) && fresh(scrollback.buf) && scrollback.history == []
      ensures Snapshot() == SessionState(keyB2A, keyA2B, 0, 0, map[], [], [])
    {
      this.keyB2A, this.keyA2B := keyB2A, keyA2B;
      sendCounter, recvCounter, pendingTransfers, typed, sent := 0, 0, map[], [], [];
      scrollback := new RingBuffer(ScrollbackBytes);
    }

    method SendCounterNext() returns (v: nat)
      modifies this`sendCounter
      ensures v == old(sendCounter) && sendCounter == NextUint64(old(sendCounter))
    {
      v := sendCounter;
      sendCounter := NextUint64(sendCounter);
    }

    method SendNote(note: Note)
      modifies this`sendCounter, this`sent
      ensures Snapshot() == Tell(old(Snapshot()), note)
    {
      var counter := SendCounterNext();
      sent := sent + [NoteOut(note, counter)];
    }

    method Open(data: Option<Wire>) returns (plain: Option<Bytes>)
      modifies this`recvCounter
      ensures (Snapshot(), plain) == DecryptIncoming(old(Snapshot()), data)
    {
      if data.None? {
        return None;
      }
      plain := Decrypt(keyB2A, data.value, DirectionB2A, recvCounter);
      if plain.Some? {
        recvCounter := NextUint64(recvCounter);
      }
    }

    /** One turn of the PTY reader's loop. */
    method ForwardOutput(bytes: Bytes)
      requires Valid()
      modifies this`sendCounter, this`sent, scrollback, scrollback.buf
      ensures Valid() && scrollback.buf == old(scrollback.buf) && scrollback.history == old(scrollback.history) + bytes
      ensures Snapshot() == OnPtyOutput(old(Snapshot()), bytes)
      ensures bytes != [] ==> sent == old(sent) + [DataOut(bytes, old(sendCounter))]
      ensures bytes == [] ==> sent == old(sent) && sendCounter == old(sendCounter)
    {
      if bytes != [] {
        scrollback.Write(bytes);
        var counter := SendCounterNext();
        sent := sent + [DataOut(bytes, counter)];
      }
    }

    /** The PTY reader over what successive reads returned. */
    method ReadPty(outputs: seq<Bytes>)
      requires Valid()
      modifies this`sendCounter, this`sent, scrollback, scrollback.buf
      ensures Valid() && scrollback.history == old(scrollback.history) + Flatten(outputs)
      ensures Snapshot() == SessionRun(old(Snapshot()), OutputEvents(outputs))
    {
      ghost var start, history := Snapshot(), scrollback.history;
      ghost var st, all := start, history;
      assert outputs[..0] == [] && history + [] == history;
      var i := 0;
      while i < |outputs|
        invariant 0 <= i <= |outputs|
        invariant Valid() && scrollback.buf == old(scrollback.buf)
        invariant Snapshot() == st && scrollback.history == all
        invariant st == SessionRun(start, OutputEvents(outputs[..i])) && all == history + Flatten(outputs[..i])
      {
        OneMoreOutput(start, history, outputs, i);
        ForwardOutput(outputs[i]);
        st, all := OnPtyOutput(st, outputs[i]), all + outputs[i];
        i := i + 1;
      }
      assert outputs[..i] == outputs;
    }

    method HandlePtyData(payloadLength: nat, data: Option<Wire>)
      modifies this`recvCounter, this`typed
      ensures Snapshot() == OnPtyData(old(Snapshot()), payloadLength, data)
      ensures typed == old(typed) + if payloadLength > 262_144 || data.None? then []
                                    else match Decrypt(keyB2A, data.value, 0, old(recvCounter)) case None => [] case Some(p) => p
    {
      if payloadLength > MAX_PTY_PAYLOAD_BYTES * 2 {
        return;
      }
      var plain := Open(data);
      if plain.Some? {
        typed := typed + plain.value;
      }
    }

    method HandleReplayRequest()
      requires Valid()
      modifies this`sendCounter, this`sent
      ensures Snapshot() == OnReplayRequest(old(Snapshot()), Last(scrollback.history, ScrollbackBytes))
      ensures scrollback.history == [] ==> Snapshot() == old(Snapshot())
      ensures scrollback.history != [] ==>
                var h := scrollback.history;
                && sent == old(sent) + [ReplayOut(if |h| <= 1_048_576 then h else h[|h| - 1_048_576..], old(sendCounter))]
                && sendCounter == (old(sendCounter) + 1) % 0x1_0000_0000_0000_0000
    {
      var data := scrollback.Contents();
      if data == [] {
        return;
      }
      var counter := SendCounterNext();
      sent := sent + [ReplayOut(data, counter)];
    }

    method HandleFileTransferStart(tid: string, data: Option<Wire>, w: World)
      modifies this
      ensures Snapshot() == OnStart(old(Snapshot()), tid, data, w)
    {
      var plain := Open(data);
      if plain.None? {
        return;
      }
      var meta := w.metadata(plain.value);
      if meta.None? {
        return;
      }
      if meta.value.totalSize > MAX_TRANSFER_SIZE {
        SendNote(Refused(tid, "file too large"));
        return;
      }
      if meta.value.totalChunks <= 0 || meta.value.totalSize <= 0 {
        SendNote(Refused(tid, "invalid transfer metadata"));
        return;
      }
      if |pendingTransfers| >= MAX_TRANSFERS_PER_SESSION {
        SendNote(Refused(tid, "too many concurrent transfers"));
        return;
      }
      pendingTransfers := pendingTransfers[tid := Pending(meta.value.totalSize, meta.value.totalChunks, map[], 0, w.now)];
      SendNote(Accepted(tid));
    }

    method HandleFileTransferChunk(tid: string, index: int, data: Option<Wire>, w: World)
      modifies this
      ensures Snapshot() == OnChunk(old(Snapshot()), tid, index, data, w)
    {
      if tid !in pendingTransfers {
        return;
      }
      if w.now - pendingTransfers[tid].createdAt > TRANSFER_TIMEOUT_MS {
        pendingTransfers := pendingTransfers - {tid};
        return;
      }
      var plain := Open(data);
      if plain.None? {
        return;
      }
      var pt := pendingTransfers[tid];
      pt := pt.(chunks := pt.chunks[index := plain.value]);
      pt := pt.(received := pt.received + 1);
      pendingTransfers := pendingTransfers[tid := pt];
      if pt.received % 10 == 0 {
        SendNote(ProgressNote(tid, pt.received));
      }
    }

    method HandleFileTransferEnd(tid: string, data: Option<Wire>, w: World)
      modifies this
      ensures Snapshot() == OnEnd(old(Snapshot()), tid, data, w)
    {
      if tid !in pendingTransfers {
        return;
      }
      var pt := pendingTransfers[tid];
      var plain := Open(data);
      if plain.Some? {
        var sha := w.endSha(plain.value);
        if sha.Some? {
          var content := Reassemble(pt.chunks, if pt.totalChunks < 0 then 0 else pt.totalChunks);
          if content.None? {
            SendNote(Refused(tid, "missing chunks"));
          } else if !w.diskOk {
            SendNote(Refused(tid, "failed to save file"));
          } else {
            SendNote(Completed(tid, w.sha256(content.value) == sha.value, content.value));
          }
        }
      }
      pendingTransfers := pendingTransfers - {tid};
    }
  }
}
