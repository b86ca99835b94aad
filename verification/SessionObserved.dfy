/** What a session of the agent answers, event by event and over whole runs, told from the events and
    without the functions that compute the state after them. */
module SessionObserved {
  import opened Prelude
  import opened Crypto
  import opened Channel
  import opened Transfer

  // ---------------------------------------------------------------- output and replays

  /** The replays among the sent messages, in order. */
  function ReplaysIn(sent: seq<Outgoing>): seq<Bytes> {
    if sent == [] then []
    else ReplaysIn(sent[..|sent| - 1]) + if sent[|sent| - 1].ReplayOut? then [sent[|sent| - 1].bytes] else []
  }

  /** The pieces of output among them. */
  function OutputsIn(sent: seq<Outgoing>): seq<Bytes> {
    if sent == [] then []
    else OutputsIn(sent[..|sent| - 1]) + if sent[|sent| - 1].DataOut? then [sent[|sent| - 1].bytes] else []
  }

  /** The last megabyte of `o`, if there is anything. */
  function Tail(o: Bytes): seq<Bytes> {
    if |o| == 0 then [] else if |o| <= 1_048_576 then [o] else [o[|o| - 1_048_576..]]
  }

  /** For each replay request in turn, the last megabyte printed before it, if anything was. */
  function ReplaysAsked(es: seq<SessionEvent>): seq<Bytes> {
    if es == [] then []
    else ReplaysAsked(es[..|es| - 1]) + if es[|es| - 1].ReplayRequest? then Tail(OutputOf(es[..|es| - 1])) else []
  }

  /** The reads of the PTY that returned something. */
  function ReadsOf(es: seq<SessionEvent>): seq<Bytes> {
    if es == [] then []
    else ReadsOf(es[..|es| - 1]) + if es[|es| - 1].PtyOutput? && |es[|es| - 1].bytes| > 0 then [es[|es| - 1].bytes] else []
  }

  lemma SentSnoc(sent: seq<Outgoing>, o: Outgoing)
    ensures ReplaysIn(sent + [o]) == ReplaysIn(sent) + if o.ReplayOut? then [o.bytes] else []
    ensures OutputsIn(sent + [o]) == OutputsIn(sent) + if o.DataOut? then [o.bytes] else []
  {
    assert (sent + [o])[..|sent|] == sent;
  }

  lemma OneAnswer(st: SessionState, e: SessionEvent, output: Bytes)
    requires e.ReplayRequest? ==> e.contents == Last(output, ScrollbackBytes)
    ensures ReplaysIn(SessionStep(st, e).sent) == ReplaysIn(st.sent) + if e.ReplayRequest? then Tail(output) else []
    ensures OutputsIn(SessionStep(st, e).sent) == OutputsIn(st.sent) + if e.PtyOutput? && |e.bytes| > 0 then [e.bytes] else []
  {
    var out := Answer(st, e);
    if out.Some? {
      SentSnoc(st.sent, out.value);
    }
  }

  /** Over any run: the replays a session sends are one for each replay request after some output, each
      the last megabyte printed by then, in the order of the requests; and its pieces of output are the
      non-empty reads of the PTY, in order. */
  lemma {:induction false} AnswersInOrder(st: SessionState, es: seq<SessionEvent>)
    requires ReplaysAreScrollback(es)
    ensures ReplaysIn(SessionRun(st, es).sent) == ReplaysIn(st.sent) + ReplaysAsked(es)
    ensures OutputsIn(SessionRun(st, es).sent) == OutputsIn(st.sent) + ReadsOf(es)
  {
    if es != [] {
      var n := |es| - 1;
      ReplaysInit(es);
      AnswersInOrder(st, es[..n]);
      OneAnswer(SessionRun(st, es[..n]), es[n], OutputOf(es[..n]));
      Together(ReplaysIn(st.sent), ReplaysAsked(es[..n]), if es[n].ReplayRequest? then Tail(OutputOf(es[..n])) else []);
      Together(OutputsIn(st.sent), ReadsOf(es[..n]), if es[n].PtyOutput? && |es[n].bytes| > 0 then [es[n].bytes] else []);
    }
  }

  lemma Together(a: seq<Bytes>, b: seq<Bytes>, c: seq<Bytes>)
    ensures (a + b) + c == a + (b + c)
  {
  }

  lemma ReplaysInit(es: seq<SessionEvent>)
    requires es != [] && ReplaysAreScrollback(es)
    ensures ReplaysAreScrollback(es[..|es| - 1])
  {
    var n := |es| - 1;
    forall i | 0 <= i < n && es[..n][i].ReplayRequest? ensures es[..n][i].contents == Last(OutputOf(es[..n][..i]), ScrollbackBytes) {
      assert es[..n][..i] == es[..i];
    }
  }

  // ---------------------------------------------------------------- what a transfer is told

  function Opened(st: SessionState, data: Option<Wire>): Option<Bytes> {
    if data.None? then None else Decrypt(st.keyB2A, data.value, DirectionB2A, st.recvCounter)
  }

  /** The acknowledgement of a start with these metadata. */
  predicate StartNote(st: SessionState, tid: string, meta: Metadata, note: Note) {
    || (note == Refused(tid, "file too large") && meta.totalSize > 10_485_760)
    || (meta.totalSize <= 10_485_760
        && ((note == Refused(tid, "invalid transfer metadata") && (meta.totalChunks < 1 || meta.totalSize < 1))
            || (meta.totalChunks >= 1 && meta.totalSize >= 1
                && ((note == Refused(tid, "too many concurrent transfers") && |st.pending| >= 1)
                    || (note == Accepted(tid) && |st.pending| == 0)))))
  }

  /** A start that opens and parses is acknowledged, with the first reason it is refused for, and is
      pending afterwards exactly when it is accepted; any other start is dropped in silence. */
  lemma StartAnswers(st: SessionState, tid: string, data: Option<Wire>, w: World) returns (note: Option<Note>)
    ensures note.Some? <==> Opened(st, data).Some? && w.metadata(Opened(st, data).value).Some?
    ensures note.Some? ==> StartNote(st, tid, w.metadata(Opened(st, data).value).value, note.value)
    ensures var after := SessionStep(st, TransferStart(tid, data, w));
            && after.sent == st.sent + (if note.Some? then [NoteOut(note.value, st.sendCounter)] else [])
            && after.pending
               == if note == Some(Accepted(tid))
                  then var meta := w.metadata(Opened(st, data).value).value;
                       st.pending[tid := Pending(meta.totalSize, meta.totalChunks, map[], 0, w.now)]
                  else st.pending
  {
    note := None;
    if Opened(st, data).Some? && w.metadata(Opened(st, data).value).Some? {
      var meta := w.metadata(Opened(st, data).value).value;
      var problem := StartProblem(st, meta);
      note := Some(if problem.Some? then Refused(tid, problem.value) else Accepted(tid));
    }
  }

  /** A chunk of no pending transfer changes nothing, and one of a transfer over a minute old drops it.
      Any other chunk that opens is stored at its index, and after every tenth the browser is told how
      many came. */
  lemma ChunkAnswers(st: SessionState, tid: string, index: int, data: Option<Wire>, w: World)
    ensures var after := SessionStep(st, TransferChunk(tid, index, data, w));
            && (tid !in st.pending ==> after == st)
            && (tid in st.pending && w.now - st.pending[tid].createdAt > 60_000 ==> after == st.(pending := st.pending - {tid}))
            && (tid in st.pending && w.now - st.pending[tid].createdAt <= 60_000 ==>
                  ChunkOutcome(st, after, tid, index, Opened(st, data)))
  {
  }

  ghost predicate ChunkOutcome(st: SessionState, after: SessionState, tid: string, index: int, plain: Option<Bytes>)
    requires tid in st.pending
  {
    var pt := st.pending[tid];
    if plain.None? then after == st
    else
      && after.pending == st.pending[tid := pt.(chunks := pt.chunks[index := plain.value], received := pt.received + 1)]
      && after.sent == st.sent + (if (pt.received + 1) % 10 == 0 then [NoteOut(ProgressNote(tid, pt.received + 1), st.sendCounter)]
                                  else [])
  }

  /** After the end nothing of the transfer is pending. The end is answered exactly when it opens and
      parses: missing chunks, a failed disk, or the file and whether its checksum is the announced one. */
  lemma EndAnswersOnce(st: SessionState, tid: string, data: Option<Wire>, w: World) returns (note: Option<Note>)
    ensures var after := SessionStep(st, TransferEnd(tid, data, w));
            && (tid !in st.pending ==> after == st)
            && after.pending == st.pending - {tid}
            && after.sent == st.sent + if note.Some? then [NoteOut(note.value, st.sendCounter)] else []
    ensures note.Some? <==> tid in st.pending && Opened(st, data).Some? && w.endSha(Opened(st, data).value).Some?
    ensures note.Some? ==>
              var pt, sha := st.pending[tid], w.endSha(Opened(st, data).value).value;
              && (note.value == Refused(tid, "missing chunks") <==> exists i: nat :: i < pt.totalChunks && i !in pt.chunks)
              && (note.value == Refused(tid, "failed to save file")
                  <==> !w.diskOk && forall i: nat :: i < pt.totalChunks ==> i in pt.chunks)
              && (note.value.Completed? <==> w.diskOk && forall i: nat :: i < pt.totalChunks ==> i in pt.chunks)
              && (note.value.Completed? ==> note.value.tid == tid && (note.value.sha256Match <==> w.sha256(note.value.content) == sha))
  {
    note := None;
    if tid in st.pending && Opened(st, data).Some? && w.endSha(Opened(st, data).value).Some? {
      var pt, sha := st.pending[tid], w.endSha(Opened(st, data).value).value;
      note := Some(EndAnswer(tid, pt, sha, w));
      AssembledWhenComplete(pt.chunks, if pt.totalChunks < 0 then 0 else pt.totalChunks);
    }
  }
}
