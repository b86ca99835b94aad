/** File transfers inside the channel: how the browser cuts a buffer into slices, how the agent keeps
    the pending transfer and puts the slices together again. */
module Transfer {
  import opened Prelude
  import opened Crypto
  import opened Channel

  const CHUNK_SIZE := 32 * 1024
  const MAX_TRANSFER_SIZE := 10 * 1024 * 1024
  const MAX_TRANSFERS_PER_SESSION := 1
  const TRANSFER_TIMEOUT_MS := 60 * 1000
  const MAX_PTY_PAYLOAD_BYTES := 128 * 1024

  // ---------------------------------------------------------------- cutting

  function SliceCount(n: nat): nat {
    (n + CHUNK_SIZE - 1) / CHUNK_SIZE
  }

  function Slice(buffer: Bytes, i: nat): Bytes
    requires i < SliceCount(|buffer|)
  {
    var start := i * CHUNK_SIZE;
    buffer[start..if start + CHUNK_SIZE < |buffer| then start + CHUNK_SIZE else |buffer|]
  }

  function Slices(buffer: Bytes): seq<Bytes> {
    seq(SliceCount(|buffer|), i requires 0 <= i < SliceCount(|buffer|) => Slice(buffer, i))
  }

  // ---------------------------------------------------------------- putting together

  /** Chunks 0..n-1 in order; nothing if one is missing. */
  function Assembled(chunks: map<int, Bytes>, n: nat): Option<Bytes> {
    if n == 0 then Some([])
    else
      var before := Assembled(chunks, n - 1);
      if before.None? || n - 1 !in chunks then None else Some(before.value + chunks[n - 1])
  }

  lemma PresentSnoc(chunks: map<int, Bytes>, n: nat)
    ensures (forall i: nat :: i < n + 1 ==> i in chunks) <==> n in chunks && forall i: nat :: i < n ==> i in chunks
  {
  }

  lemma {:induction false} AssembledWhenComplete(chunks: map<int, Bytes>, n: nat)
    ensures Assembled(chunks, n).Some? <==> forall i: nat :: i < n ==> i in chunks
  {
    if n > 0 {
      AssembledWhenComplete(chunks, n - 1);
      PresentSnoc(chunks, n - 1);
    }
  }

  method Reassemble(chunks: map<int, Bytes>, totalChunks: nat) returns (r: Option<Bytes>)
    ensures r == Assembled(chunks, totalChunks)
  {
    var assembled: Bytes := [];
    var i := 0;
    while i < totalChunks
      invariant 0 <= i <= totalChunks && Assembled(chunks, i) == Some(assembled)
    {
      if i !in chunks {
        AssembledWhenComplete(chunks, totalChunks);
        return None;
      }
      assembled := assembled + chunks[i];
      i := i + 1;
    }
    return Some(assembled);
  }

  /** Chunks that all hold their own slice of `buffer`. */
  ghost predicate HoldsSlices(chunks: map<int, Bytes>, buffer: Bytes) {
    forall i: nat :: i in chunks && i < SliceCount(|buffer|) ==> chunks[i] == Slice(buffer, i)
  }

  /** Where slice number `i` ends. */
  function SliceEnd(i: nat, n: nat): nat {
    if i * CHUNK_SIZE < n then i * CHUNK_SIZE else n
  }

  lemma SliceExtends(buffer: Bytes, i: nat)
    requires i < SliceCount(|buffer|)
    ensures i * CHUNK_SIZE < |buffer|
    ensures buffer[..SliceEnd(i, |buffer|)] + Slice(buffer, i) == buffer[..SliceEnd(i + 1, |buffer|)]
  {
  }

  lemma {:induction false} AssembledSlices(chunks: map<int, Bytes>, buffer: Bytes, n: nat)
    requires HoldsSlices(chunks, buffer) && n <= SliceCount(|buffer|)
    requires forall i: nat :: i < n ==> i in chunks
    ensures Assembled(chunks, n) == Some(buffer[..SliceEnd(n, |buffer|)])
  {
    if n > 0 {
      AssembledSlices(chunks, buffer, n - 1);
      var last: nat := n - 1;
      assert last in chunks && chunks[last] == Slice(buffer, last);
      SliceExtends(buffer, last);
    }
  }

  function StoreAll(chunks: map<int, Bytes>, buffer: Bytes, arrivals: seq<nat>): map<int, Bytes>
    requires forall k :: 0 <= k < |arrivals| ==> arrivals[k] < SliceCount(|buffer|)
  {
    if arrivals == [] then chunks
    else StoreAll(chunks, buffer, arrivals[..|arrivals| - 1])[arrivals[|arrivals| - 1] := Slice(buffer, arrivals[|arrivals| - 1])]
  }

  lemma {:induction false} StoredArrivals(buffer: Bytes, arrivals: seq<nat>)
    requires forall k :: 0 <= k < |arrivals| ==> arrivals[k] < SliceCount(|buffer|)
    ensures HoldsSlices(StoreAll(map[], buffer, arrivals), buffer)
    ensures forall i: nat :: i in StoreAll(map[], buffer, arrivals) <==> i in arrivals
  {
    if arrivals != [] {
      StoredArrivals(buffer, arrivals[..|arrivals| - 1]);
      assert arrivals == arrivals[..|arrivals| - 1] + [arrivals[|arrivals| - 1]];
    }
  }

  lemma AllSlicesCover(n: nat)
    ensures n <= SliceCount(n) * CHUNK_SIZE
    ensures SliceCount(n) > 0 ==> (SliceCount(n) - 1) * CHUNK_SIZE < n
  {
  }

  /** Slices delivered in any order, with repetitions, reassemble to the original buffer exactly when
      none is missing; when one is missing nothing is assembled. */
  lemma AnyOrderRoundTrip(buffer: Bytes, arrivals: seq<nat>)
    requires forall k :: 0 <= k < |arrivals| ==> arrivals[k] < SliceCount(|buffer|)
    ensures var got := Assembled(StoreAll(map[], buffer, arrivals), SliceCount(|buffer|));
            got == if (forall i: nat :: i < SliceCount(|buffer|) ==> i in arrivals) then Some(buffer) else None
  {
    var chunks, n := StoreAll(map[], buffer, arrivals), SliceCount(|buffer|);
    StoredArrivals(buffer, arrivals);
    AssembledWhenComplete(chunks, n);
    if forall i: nat :: i < n ==> i in arrivals {
      AssembledSlices(chunks, buffer, n);
      AllSlicesCover(|buffer|);
      assert buffer[..|buffer|] == buffer;
    } else {
      var i: nat :| i < n && i !in arrivals;
      assert i !in chunks;
    }
  }

  // ---------------------------------------------------------------- the agent's session

  datatype Pending = Pending(totalSize: int, totalChunks: int, chunks: map<int, Bytes>, received: nat, createdAt: int)
  datatype Metadata = Metadata(totalSize: int, totalChunks: int)

  datatype Note =
    | Accepted(tid: string)
    | Refused(tid: string, error: string)
    | ProgressNote(tid: string, chunksReceived: nat)
    | Completed(tid: string, sha256Match: bool, content: Bytes)

  /** What the session sent, with the counter value each message was sealed under. */
  datatype Outgoing =
    | NoteOut(note: Note, counter: nat)
    | ReplayOut(bytes: Bytes, counter: nat)
    | DataOut(bytes: Bytes, counter: nat)

  /** `typed` is what was written to the PTY. */
  datatype SessionState = SessionState(keyB2A: Key, keyA2B: Key, sendCounter: nat, recvCounter: nat,
                                       pending: map<string, Pending>, typed: Bytes, sent: seq<Outgoing>)

  /** What the environment supplies: the clock, the JSON and SHA-256 libraries, the file system. */
  datatype World = World(now: int, metadata: Bytes -> Option<Metadata>, endSha: Bytes -> Option<Bytes>,
                         sha256: Bytes -> Bytes, diskOk: bool)

  function DecryptIncoming(st: SessionState, data: Option<Wire>): (SessionState, Option<Bytes>) {
    if data.None? then (st, None)
    else
      var plain := Decrypt(st.keyB2A, data.value, DirectionB2A, st.recvCounter);
      (if plain.Some? then st.(recvCounter := NextUint64(st.recvCounter)) else st, plain)
  }

  function Tell(st: SessionState, note: Note): SessionState {
    st.(sent := st.sent + [NoteOut(note, st.sendCounter)], sendCounter := NextUint64(st.sendCounter))
  }

  function OnPtyData(st: SessionState, payloadLength: nat, data: Option<Wire>): SessionState {
    if payloadLength > MAX_PTY_PAYLOAD_BYTES * 2 then st
    else
      var (st1, plain) := DecryptIncoming(st, data);
      if plain.None? then st1 else st1.(typed := st1.typed + plain.value)
  }

  function StartProblem(st: SessionState, meta: Metadata): Option<string> {
    if meta.totalSize > MAX_TRANSFER_SIZE then Some("file too large")
    else if meta.totalChunks <= 0 || meta.totalSize <= 0 then Some("invalid transfer metadata")
    else if |st.pending| >= MAX_TRANSFERS_PER_SESSION then Some("too many concurrent transfers")
    else None
  }

  function OnStart(st: SessionState, tid: string, data: Option<Wire>, w: World): SessionState {
    var (st1, plain) := DecryptIncoming(st, data);
    if plain.None? then st1
    else
      match w.metadata(plain.value)
      case None => st1
      case Some(meta) =>
        var problem := StartProblem(st1, meta);
        if problem.Some? then Tell(st1, Refused(tid, problem.value))
        else Tell(st1.(pending := st1.pending[tid := Pending(meta.totalSize, meta.totalChunks, map[], 0, w.now)]), Accepted(tid))
  }

  function OnChunk(st: SessionState, tid: string, index: int, data: Option<Wire>, w: World): SessionState {
    if tid !in st.pending then st
    else if w.now - st.pending[tid].createdAt > TRANSFER_TIMEOUT_MS then st.(pending := st.pending - {tid})
    else
      var (st1, plain) := DecryptIncoming(st, data);
      if plain.None? then st1
      else
        var pt := st1.pending[tid];
        var pt1 := pt.(chunks := pt.chunks[index := plain.value], received := pt.received + 1);
        var st2 := st1.(pending := st1.pending[tid := pt1]);
        if pt1.received % 10 == 0 then Tell(st2, ProgressNote(tid, pt1.received)) else st2
  }

  function EndAnswer(tid: string, pt: Pending, sha: Bytes, w: World): Note {
    match Assembled(pt.chunks, if pt.totalChunks < 0 then 0 else pt.totalChunks)
    case None => Refused(tid, "missing chunks")
    case Some(content) =>
      if !w.diskOk then Refused(tid, "failed to save file") else Completed(tid, w.sha256(content) == sha, content)
  }

  function OnEnd(st: SessionState, tid: string, data: Option<Wire>, w: World): SessionState {
    if tid !in st.pending then st
    else
      var (st1, plain) := DecryptIncoming(st, data);
      var st2 := if plain.None? || w.endSha(plain.value).None? then st1
                 else Tell(st1, EndAnswer(tid, st.pending[tid], w.endSha(plain.value).value, w));
      st2.(pending := st2.pending - {tid})
  }

  function OnReplayRequest(st: SessionState, contents: Bytes): SessionState {
    if contents == [] then st
    else st.(sent := st.sent + [ReplayOut(contents, st.sendCounter)], sendCounter := NextUint64(st.sendCounter))
  }

  /** One read of the PTY; an empty read sends nothing. */
  function OnPtyOutput(st: SessionState, bytes: Bytes): SessionState {
    if bytes == [] then st
    else st.(sent := st.sent + [DataOut(bytes, st.sendCounter)], sendCounter := NextUint64(st.sendCounter))
  }

  datatype SessionEvent =
    | PtyInput(payloadLength: nat, data: Option<Wire>)
    | TransferStart(tid: string, data: Option<Wire>, w: World)
    | TransferChunk(tid: string, index: int, data: Option<Wire>, w: World)
    | TransferEnd(tid: string, data: Option<Wire>, w: World)
    | ReplayRequest(contents: Bytes)
    | PtyOutput(bytes: Bytes)

  function SessionStep(st: SessionState, e: SessionEvent): SessionState {
    match e
    case PtyInput(n, data) => OnPtyData(st, n, data)
    case TransferStart(tid, data, w) => OnStart(st, tid, data, w)
    case TransferChunk(tid, index, data, w) => OnChunk(st, tid, index, data, w)
    case TransferEnd(tid, data, w) => OnEnd(st, tid, data, w)
    case ReplayRequest(contents) => OnReplayRequest(st, contents)
    case PtyOutput(bytes) => OnPtyOutput(st, bytes)
  }

  function SessionRun(st: SessionState, es: seq<SessionEvent>): SessionState {
    if es == [] then st else SessionStep(SessionRun(st, es[..|es| - 1]), es[|es| - 1])
  }

  // ---------------------------------------------------------------- what every run of a session keeps

  lemma FewerPending(m: map<string, Pending>, tid: string)
    ensures |m - {tid}| <= |m|
  {
    assert (m - {tid}).Keys <= m.Keys;
    assert m.Keys == (m - {tid}).Keys + (m.Keys - (m - {tid}).Keys);
  }

  lemma SamePending(m: map<string, Pending>, tid: string, pt: Pending)
    requires tid in m
    ensures |m[tid := pt]| == |m|
  {
    assert m[tid := pt].Keys == m.Keys;
    assert |m[tid := pt].Keys| == |m.Keys|;
  }

  lemma FirstPending(m: map<string, Pending>)
    requires |m| == 0
    ensures m == map[]
  {
  }

  lemma OpeningKeepsPending(st: SessionState, data: Option<Wire>)
    ensures DecryptIncoming(st, data).0.pending == st.pending
  {
  }

  lemma ChunkKeepsOnePending(st: SessionState, tid: string, index: int, data: Option<Wire>, w: World)
    ensures |OnChunk(st, tid, index, data, w).pending| <= |st.pending|
  {
    FewerPending(st.pending, tid);
    OpeningKeepsPending(st, data);
    if tid in st.pending {
      forall pt: Pending {:trigger st.pending[tid := pt]} ensures |st.pending[tid := pt]| == |st.pending| {
        SamePending(st.pending, tid, pt);
      }
    }
  }

  lemma StartKeepsOnePending(st: SessionState, tid: string, data: Option<Wire>, w: World)
    requires |st.pending| <= MAX_TRANSFERS_PER_SESSION
    ensures |OnStart(st, tid, data, w).pending| <= MAX_TRANSFERS_PER_SESSION
  {
    OpeningKeepsPending(st, data);
    if |st.pending| == 0 {
      FirstPending(st.pending);
    }
  }

  lemma EndKeepsOnePending(st: SessionState, tid: string, data: Option<Wire>, w: World)
    ensures |OnEnd(st, tid, data, w).pending| <= |st.pending|
  {
    FewerPending(st.pending, tid);
    OpeningKeepsPending(st, data);
  }

  lemma StepKeepsOnePending(st: SessionState, e: SessionEvent)
    requires |st.pending| <= MAX_TRANSFERS_PER_SESSION
    ensures |SessionStep(st, e).pending| <= MAX_TRANSFERS_PER_SESSION
  {
    match e {
      case TransferStart(tid, data, w) => StartKeepsOnePending(st, tid, data, w);
      case TransferChunk(tid, index, data, w) => ChunkKeepsOnePending(st, tid, index, data, w);
      case TransferEnd(tid, data, w) => EndKeepsOnePending(st, tid, data, w);
      case PtyInput(n, data) => OpeningKeepsPending(st, data);
      case _ =>
    }
  }

  /** At most one transfer is pending per session in every run. */
  lemma {:induction false} OnePendingTransfer(st: SessionState, es: seq<SessionEvent>)
    requires |st.pending| <= MAX_TRANSFERS_PER_SESSION
    ensures |SessionRun(st, es).pending| <= MAX_TRANSFERS_PER_SESSION
  {
    if es != [] {
      OnePendingTransfer(st, es[..|es| - 1]);
      StepKeepsOnePending(SessionRun(st, es[..|es| - 1]), es[|es| - 1]);
    }
  }

  // ---------------------------------------------------------------- the session as one end of the channel

  /** The step sends nothing, or one message under the current counter, which then advances. */
  ghost predicate SendsAtMostOne(st: SessionState, after: SessionState) {
    || (after.sent == st.sent && after.sendCounter == st.sendCounter)
    || (|after.sent| == |st.sent| + 1 && st.sent <= after.sent && after.sent[|st.sent|].counter == st.sendCounter
        && after.sendCounter == NextUint64(st.sendCounter))
  }

  lemma StepSends(st: SessionState, e: SessionEvent)
    ensures SendsAtMostOne(st, SessionStep(st, e))
  {
  }

  ghost predicate CountersInOrder(st: SessionState) {
    && st.sendCounter == |st.sent| % TwoTo64
    && forall i :: 0 <= i < |st.sent| ==> st.sent[i].counter == i % TwoTo64
  }

  lemma SendKeepsOrder(st: SessionState, after: SessionState)
    requires CountersInOrder(st) && SendsAtMostOne(st, after)
    ensures CountersInOrder(after)
  {
    if after.sent != st.sent {
      WrapsAfter(|st.sent|);
      forall i | 0 <= i < |after.sent| ensures after.sent[i].counter == i % TwoTo64 {
        if i < |st.sent| {
          assert after.sent[i] == st.sent[i];
        }
      }
    }
  }

  /** Whatever the handlers do, in any order: the k-th message a session sends is sealed at counter k,
      so what the session sent, in order, is the log of the channel model. */
  lemma {:induction false} SentInOrder(st: SessionState, es: seq<SessionEvent>)
    requires st.sent == [] && st.sendCounter == 0
    ensures CountersInOrder(SessionRun(st, es))
  {
    if es != [] {
      SentInOrder(st, es[..|es| - 1]);
      var before := SessionRun(st, es[..|es| - 1]);
      StepSends(before, es[|es| - 1]);
      SendKeepsOrder(before, SessionStep(before, es[|es| - 1]));
    }
  }

  function Received(st: SessionState, e: SessionEvent, kind: Kind, taken: seq<Plain>): (r: AgentRecv)
    requires !e.ReplayRequest? && !e.PtyOutput? && e.data.Some?
    ensures taken <= r.taken
  {
    Receive(AgentRecv(st.keyB2A, st.recvCounter, taken), Envelope(kind, e.data.value))
  }

  /** A handler that gets as far as decrypting receives as the channel model says; any other leaves the
      counter alone, which the channel model counts as refused. */
  lemma HandlersReceive(st: SessionState, e: SessionEvent, kind: Kind, taken: seq<Plain>)
    requires !e.ReplayRequest? && !e.PtyOutput? && e.data.Some?
    ensures SessionStep(st, e).keyB2A == st.keyB2A
    ensures SessionStep(st, e).recvCounter == if Decrypts(st, e) then Received(st, e, kind, taken).counter else st.recvCounter
    ensures e.PtyInput? && Decrypts(st, e) && Received(st, e, kind, taken).taken != taken
            ==> SessionStep(st, e).typed == st.typed + Received(st, e, kind, taken).taken[|taken|].bytes
    ensures !e.PtyInput? || !Decrypts(st, e) || Received(st, e, kind, taken).taken == taken ==> SessionStep(st, e).typed == st.typed
  {
    var plain := Decrypt(st.keyB2A, e.data.value, DirectionB2A, st.recvCounter);
    if plain.Some? {
      var r := taken + [Plain(kind, plain.value)];
      assert r[|taken|] == Plain(kind, plain.value) && |r| == |taken| + 1;
    }
  }

  // ---------------------------------------------------------------- a session is a run of the channel

  /** A sent message as the channel model logs it; `note` is how notes are written out. */
  function Logged(o: Outgoing, note: Note -> Bytes): Plain {
    match o
    case NoteOut(n, _) => Plain(FileNote, note(n))
    case ReplayOut(bytes, _) => Plain(PtyReplay, bytes)
    case DataOut(bytes, _) => Plain(PtyData, bytes)
  }

  function LogOf(sent: seq<Outgoing>, note: Note -> Bytes): seq<Plain> {
    seq(|sent|, i requires 0 <= i < |sent| => Logged(sent[i], note))
  }

  /** Everything the PTY printed in these events. */
  function OutputOf(es: seq<SessionEvent>): Bytes {
    if es == [] then []
    else OutputOf(es[..|es| - 1]) + if es[|es| - 1].PtyOutput? then es[|es| - 1].bytes else []
  }

  /** A replay request finds in the scrollback the last megabyte printed so far. */
  ghost predicate ReplaysAreScrollback(es: seq<SessionEvent>) {
    forall i :: 0 <= i < |es| && es[i].ReplayRequest? ==> es[i].contents == Last(OutputOf(es[..i]), ScrollbackBytes)
  }

  /** What one event sends, if anything. */
  lemma Answer(st: SessionState, e: SessionEvent) returns (out: Option<Outgoing>)
    ensures out.None? ==> SessionStep(st, e).sent == st.sent && SessionStep(st, e).sendCounter == st.sendCounter
    ensures out.Some? ==> SessionStep(st, e).sent == st.sent + [out.value] && out.value.counter == st.sendCounter
                          && SessionStep(st, e).sendCounter == NextUint64(st.sendCounter)
    ensures out.Some? && out.value.DataOut? ==> e.PtyOutput? && e.bytes != [] && out.value.bytes == e.bytes
    ensures out.Some? && out.value.ReplayOut? ==> e.ReplayRequest? && e.contents != [] && out.value.bytes == e.contents
    ensures e.PtyOutput? ==> (if e.bytes == [] then out.None? else out.Some? && out.value.DataOut?)
    ensures e.ReplayRequest? ==> (if e.contents == [] then out.None? else out.Some? && out.value.ReplayOut?)
  {
    var after := SessionStep(st, e);
    StepSends(st, e);
    if after.sent == st.sent {
      out := None;
    } else {
      out := Some(after.sent[|st.sent|]);
      assert after.sent == st.sent + [after.sent[|st.sent|]];
    }
  }

  ghost predicate SameSession(st: SessionState, down: Down, output: Bytes, note: Note -> Bytes) {
    && down.key == st.keyA2B && down.reader.Idle? && down.loop.Idle? && down.output == output
    && down.counter == st.sendCounter && down.log == LogOf(st.sent, note)
  }

  lemma LogOfSnoc(sent: seq<Outgoing>, o: Outgoing, note: Note -> Bytes)
    ensures LogOf(sent + [o], note) == LogOf(sent, note) + [Logged(o, note)]
  {
  }

  /** One event of the session is at most one message of the channel model. */
  lemma EventIsEmit(st: SessionState, e: SessionEvent, output: Bytes, note: Note -> Bytes,
                    states: seq<Down>, actions: seq<DownAction>) returns (states': seq<Down>, actions': seq<DownAction>)
    requires DownRun(states, actions) && SameSession(st, DownEnd(states), output, note)
    requires e.ReplayRequest? ==> e.contents == Last(output, ScrollbackBytes)
    ensures DownRun(states', actions') && SessionStep(st, e).keyA2B == st.keyA2B
    ensures SameSession(SessionStep(st, e), DownEnd(states'), output + if e.PtyOutput? then e.bytes else [], note)
  {
    var out := Answer(st, e);
    states', actions' := states, actions;
    assert output + [] == output;
    match out {
      case None =>
      case Some(NoteOut(n, c)) =>
        states', actions' := Emit(states, actions, PrepareNote(note(n)), Loop, Plain(FileNote, note(n)));
        LogOfSnoc(st.sent, out.value, note);
      case Some(ReplayOut(bytes, c)) =>
        states', actions' := Emit(states, actions, AnswerReplay, Loop, Plain(PtyReplay, bytes));
        LogOfSnoc(st.sent, out.value, note);
      case Some(DataOut(bytes, c)) =>
        states', actions' := Emit(states, actions, ReadPty(bytes), Reader, Plain(PtyData, bytes));
        LogOfSnoc(st.sent, out.value, note);
    }
  }

  /** Every run of a session's handlers is a run of the channel model: the messages it sent, in order,
      are that run's log, sealed under that run's counters. */
  lemma {:induction false} SessionIsChannelRun(st: SessionState, es: seq<SessionEvent>, note: Note -> Bytes)
    returns (states: seq<Down>, actions: seq<DownAction>)
    requires st.sent == [] && st.sendCounter == 0 && ReplaysAreScrollback(es)
    ensures DownRun(states, actions) && SessionRun(st, es).keyA2B == st.keyA2B
    ensures SameSession(SessionRun(st, es), DownEnd(states), OutputOf(es), note)
  {
    if es == [] {
      states, actions := NewRun(st.keyA2B);
      assert LogOf([], note) == [];
    } else {
      var n := |es| - 1;
      forall i | 0 <= i < n && es[..n][i].ReplayRequest? ensures es[..n][i].contents == Last(OutputOf(es[..n][..i]), ScrollbackBytes) {
        assert es[..n][..i] == es[..i];
      }
      states, actions := SessionIsChannelRun(st, es[..n], note);
      states, actions := EventIsEmit(SessionRun(st, es[..n]), es[n], OutputOf(es[..n]), note, states, actions);
    }
  }

  // ---------------------------------------------------------------- a whole transfer

  /** The message the browser seals next: at the counter the agent expects. */
  function NextSealed(st: SessionState, plain: Bytes): Option<Wire> {
    Some(Encrypt(st.keyB2A, plain, DirectionB2A, st.recvCounter))
  }

  lemma NextSealedOpens(st: SessionState, plain: Bytes)
    requires st.recvCounter < TwoTo64
    ensures DecryptIncoming(st, NextSealed(st, plain)) == (st.(recvCounter := NextUint64(st.recvCounter)), Some(plain))
  {
    OpensExactly(st.keyB2A, plain, DirectionB2A, st.recvCounter, st.recvCounter);
  }

  /** What may happen while transfer `tid` is pending. Its own chunks come before the timeout and, if
      they open, hold their slice; its end is not among these events; anything else may come, typing,
      output, replays and the messages of other transfers included, opening or not. */
  ghost predicate Allowed(st: SessionState, e: SessionEvent, tid: string, buffer: Bytes, startedAt: int) {
    match e
    case TransferChunk(t, index, data, w) =>
      t == tid ==>
        && w.now - startedAt <= TRANSFER_TIMEOUT_MS
        && (DecryptIncoming(st, data).1.Some? ==>
              0 <= index < SliceCount(|buffer|) && DecryptIncoming(st, data).1.value == Slice(buffer, index))
    case TransferEnd(t, _, _) => t != tid
    case _ => true
  }

  ghost predicate AllAllowed(st: SessionState, es: seq<SessionEvent>, tid: string, buffer: Bytes, startedAt: int) {
    forall i :: 0 <= i < |es| ==> Allowed(SessionRun(st, es[..i]), es[i], tid, buffer, startedAt)
  }

  function ArrivedIndex(st: SessionState, e: SessionEvent, tid: string): seq<nat> {
    if e.TransferChunk? && e.tid == tid && e.index >= 0 && DecryptIncoming(st, e.data).1.Some? then [e.index] else []
  }

  /** The slices of `tid` that opened, in the order they came. */
  function Arrivals(st: SessionState, es: seq<SessionEvent>, tid: string): seq<nat> {
    if es == [] then []
    else Arrivals(st, es[..|es| - 1], tid) + ArrivedIndex(SessionRun(st, es[..|es| - 1]), es[|es| - 1], tid)
  }

  ghost predicate InRange(arrivals: seq<nat>, buffer: Bytes) {
    forall k :: 0 <= k < |arrivals| ==> arrivals[k] < SliceCount(|buffer|)
  }

  /** Transfer `tid` is the pending one and holds the slices that arrived. */
  ghost predicate Collecting(st: SessionState, tid: string, buffer: Bytes, arrivals: seq<nat>, startedAt: int) {
    && InRange(arrivals, buffer) && st.recvCounter < TwoTo64 && st.pending.Keys == {tid}
    && st.pending[tid].chunks == StoreAll(map[], buffer, arrivals)
    && st.pending[tid].totalChunks == SliceCount(|buffer|) && st.pending[tid].createdAt == startedAt
  }

  lemma OpeningStays(st: SessionState, data: Option<Wire>)
    requires st.recvCounter < TwoTo64
    ensures DecryptIncoming(st, data).0.recvCounter < TwoTo64
    ensures DecryptIncoming(st, data).0 == st.(recvCounter := DecryptIncoming(st, data).0.recvCounter)
  {
  }

  lemma StoreOne(buffer: Bytes, arrivals: seq<nat>, index: nat)
    requires InRange(arrivals, buffer) && index < SliceCount(|buffer|)
    ensures InRange(arrivals + [index], buffer)
    ensures StoreAll(map[], buffer, arrivals + [index]) == StoreAll(map[], buffer, arrivals)[index := Slice(buffer, index)]
  {
    assert (arrivals + [index])[..|arrivals|] == arrivals;
  }

  lemma ChunkStored(st: SessionState, tid: string, index: int, data: Option<Wire>, w: World, after: SessionState)
    requires tid in st.pending && w.now - st.pending[tid].createdAt <= TRANSFER_TIMEOUT_MS && st.recvCounter < TwoTo64
    requires after == OnChunk(st, tid, index, data, w) && DecryptIncoming(st, data).1.Some?
    ensures after.recvCounter < TwoTo64 && after.pending.Keys == st.pending.Keys
    ensures after.pending[tid].chunks == st.pending[tid].chunks[index := DecryptIncoming(st, data).1.value]
    ensures after.pending[tid].totalChunks == st.pending[tid].totalChunks
    ensures after.pending[tid].createdAt == st.pending[tid].createdAt
  {
    OpeningStays(st, data);
  }

  lemma ChunkIgnored(st: SessionState, tid: string, index: int, data: Option<Wire>, w: World)
    requires tid in st.pending && w.now - st.pending[tid].createdAt <= TRANSFER_TIMEOUT_MS
    requires DecryptIncoming(st, data).1.None?
    ensures OnChunk(st, tid, index, data, w) == st
  {
  }

  lemma OwnChunkKeeps(st: SessionState, tid: string, index: int, data: Option<Wire>, w: World, buffer: Bytes,
                      arrivals: seq<nat>, startedAt: int)
    requires Collecting(st, tid, buffer, arrivals, startedAt)
    requires Allowed(st, TransferChunk(tid, index, data, w), tid, buffer, startedAt)
    ensures Collecting(OnChunk(st, tid, index, data, w), tid, buffer,
                       arrivals + ArrivedIndex(st, TransferChunk(tid, index, data, w), tid), startedAt)
  {
    if DecryptIncoming(st, data).1.Some? {
      ChunkStored(st, tid, index, data, w, OnChunk(st, tid, index, data, w));
      StoreOne(buffer, arrivals, index);
    } else {
      ChunkIgnored(st, tid, index, data, w);
      assert arrivals + [] == arrivals;
    }
  }

  lemma OtherEventKeeps(st: SessionState, e: SessionEvent, tid: string, buffer: Bytes, arrivals: seq<nat>, startedAt: int)
    requires Collecting(st, tid, buffer, arrivals, startedAt)
    requires Allowed(st, e, tid, buffer, startedAt) && !(e.TransferChunk? && e.tid == tid)
    ensures Collecting(SessionStep(st, e), tid, buffer, arrivals, startedAt)
  {
    if !e.ReplayRequest? && !e.PtyOutput? {
      OpeningStays(st, e.data);
    }
    assert |st.pending| == 1 by { assert |st.pending.Keys| == 1; }
  }

  lemma EventKeeps(st: SessionState, e: SessionEvent, tid: string, buffer: Bytes, arrivals: seq<nat>, startedAt: int)
    requires Collecting(st, tid, buffer, arrivals, startedAt) && Allowed(st, e, tid, buffer, startedAt)
    ensures Collecting(SessionStep(st, e), tid, buffer, arrivals + ArrivedIndex(st, e, tid), startedAt)
  {
    if e.TransferChunk? && e.tid == tid {
      OwnChunkKeeps(st, tid, e.index, e.data, e.w, buffer, arrivals, startedAt);
    } else {
      OtherEventKeeps(st, e, tid, buffer, arrivals, startedAt);
      assert arrivals + [] == arrivals;
    }
  }

  lemma {:induction false} EventsKeep(st: SessionState, es: seq<SessionEvent>, tid: string, buffer: Bytes, startedAt: int)
    requires Collecting(st, tid, buffer, [], startedAt) && AllAllowed(st, es, tid, buffer, startedAt)
    ensures Collecting(SessionRun(st, es), tid, buffer, Arrivals(st, es, tid), startedAt)
  {
    if es != [] {
      var n := |es| - 1;
      forall i | 0 <= i < n ensures Allowed(SessionRun(st, es[..n][..i]), es[..n][i], tid, buffer, startedAt) {
        assert es[..n][..i] == es[..i];
      }
      EventsKeep(st, es[..n], tid, buffer, startedAt);
      EventKeeps(SessionRun(st, es[..n]), es[n], tid, buffer, Arrivals(st, es[..n], tid), startedAt);
    }
  }

  lemma TransferStarts(st: SessionState, tid: string, start: Bytes, buffer: Bytes, w: World)
    requires st.pending == map[] && st.recvCounter < TwoTo64 && 0 < |buffer| <= MAX_TRANSFER_SIZE
    requires w.metadata(start) == Some(Metadata(|buffer|, SliceCount(|buffer|)))
    ensures Collecting(OnStart(st, tid, NextSealed(st, start), w), tid, buffer, [], w.now)
  {
    AllSlicesCover(|buffer|);
    NextSealedOpens(st, start);
  }

  ghost predicate EverySliceIn(buffer: Bytes, arrivals: seq<nat>) {
    forall i: nat :: i < SliceCount(|buffer|) ==> i in arrivals
  }

  /** The saved file is the browser's buffer, or the refusal says why there is none. */
  function Verdict(tid: string, buffer: Bytes, complete: bool, sha: Bytes, w: World): Note {
    if !complete then Refused(tid, "missing chunks")
    else if !w.diskOk then Refused(tid, "failed to save file")
    else Completed(tid, w.sha256(buffer) == sha, buffer)
  }

  lemma EndAnswers(tid: string, pt: Pending, buffer: Bytes, arrivals: seq<nat>, sha: Bytes, w: World)
    requires InRange(arrivals, buffer)
    requires pt.chunks == StoreAll(map[], buffer, arrivals) && pt.totalChunks == SliceCount(|buffer|)
    ensures EndAnswer(tid, pt, sha, w) == Verdict(tid, buffer, EverySliceIn(buffer, arrivals), sha, w)
  {
    AnyOrderRoundTrip(buffer, arrivals);
  }

  lemma TransferEnds(st: SessionState, tid: string, end: Bytes, sha: Bytes, w: World)
    requires st.pending.Keys == {tid} && st.recvCounter < TwoTo64 && w.endSha(end) == Some(sha)
    ensures var ended := OnEnd(st, tid, NextSealed(st, end), w);
            && ended.pending == map[]
            && ended.sent == st.sent + [NoteOut(EndAnswer(tid, st.pending[tid], sha, w), st.sendCounter)]
  {
    NextSealedOpens(st, end);
  }

  /** Start, then any allowed events, then the end: when every slice came, in whatever order, with
      repetitions and whatever else in between, the saved file is the browser's buffer; otherwise the
      end refuses. Either way no transfer stays pending. */
  lemma WholeTransfer(st: SessionState, tid: string, buffer: Bytes, start: Bytes, w: World, es: seq<SessionEvent>,
                      end: Bytes, sha: Bytes, w': World)
    requires 0 < |buffer| <= MAX_TRANSFER_SIZE && st.pending == map[] && st.recvCounter < TwoTo64
    requires w.metadata(start) == Some(Metadata(|buffer|, SliceCount(|buffer|))) && w'.endSha(end) == Some(sha)
    requires AllAllowed(OnStart(st, tid, NextSealed(st, start), w), es, tid, buffer, w.now)
    ensures var started := OnStart(st, tid, NextSealed(st, start), w);
            var last := SessionRun(started, es);
            var ended := OnEnd(last, tid, NextSealed(last, end), w');
            && ended.pending == map[]
            && ended.sent == last.sent + [NoteOut(Verdict(tid, buffer, EverySliceIn(buffer, Arrivals(started, es, tid)), sha, w'),
                                                  last.sendCounter)]
  {
    TransferStarts(st, tid, start, buffer, w);
    var started := OnStart(st, tid, NextSealed(st, start), w);
    EventsKeep(started, es, tid, buffer, w.now);
    var last := SessionRun(started, es);
    TransferEnds(last, tid, end, sha, w');
    EndAnswers(tid, last.pending[tid], buffer, Arrivals(started, es, tid), sha, w');
  }

  // ---------------------------------------------------------------- staying in step

  /** A message of the browser with a sealed payload; output and replay requests carry none to open. */
  predicate HasPayload(e: SessionEvent) {
    !e.ReplayRequest? && !e.PtyOutput?
  }

  function Payloads(es: seq<SessionEvent>): nat {
    if es == [] then 0 else Payloads(es[..|es| - 1]) + if HasPayload(es[|es| - 1]) then 1 else 0
  }

  /** The handler gets as far as decrypting. */
  predicate Decrypts(st: SessionState, e: SessionEvent) {
    match e
    case PtyInput(n, _) => n <= MAX_PTY_PAYLOAD_BYTES * 2
    case TransferStart(_, _, _) => true
    case TransferChunk(tid, _, _, w) => tid in st.pending && w.now - st.pending[tid].createdAt <= TRANSFER_TIMEOUT_MS
    case TransferEnd(tid, _, _) => tid in st.pending
    case ReplayRequest(_) => false
    case PtyOutput(_) => false
  }

  ghost predicate SealedAt(key: Key, e: SessionEvent, counter: nat)
    requires HasPayload(e)
  {
    exists plain: Bytes :: e.data == Some(Encrypt(key, plain, DirectionB2A, counter))
  }

  /** The payloads come in the order they were sealed, without loss, from counter `first` on. */
  ghost predicate InOrder(key: Key, es: seq<SessionEvent>, first: nat) {
    es == []
    || (InOrder(key, es[..|es| - 1], first)
        && (HasPayload(es[|es| - 1]) ==> SealedAt(key, es[|es| - 1], first + Payloads(es[..|es| - 1]))))
  }

  lemma {:induction false} PayloadsBound(es: seq<SessionEvent>)
    ensures Payloads(es) <= |es|
  {
    if es != [] {
      PayloadsBound(es[..|es| - 1]);
    }
  }

  lemma {:induction false} PayloadsJoin(a: seq<SessionEvent>, b: seq<SessionEvent>)
    ensures Payloads(a + b) == Payloads(a) + Payloads(b)
  {
    if b == [] {
      assert a + b == a;
    } else {
      PayloadsJoin(a, b[..|b| - 1]);
      assert (a + b)[..|a + b| - 1] == a + b[..|b| - 1];
    }
  }

  /** Order over two stretches is order over each, the second from where the first ends. */
  lemma {:induction false} InOrderJoin(key: Key, a: seq<SessionEvent>, b: seq<SessionEvent>, first: nat, start: nat)
    requires start == first + Payloads(a)
    ensures InOrder(key, a + b, first) <==> InOrder(key, a, first) && InOrder(key, b, start)
  {
    if b == [] {
      assert a + b == a;
    } else {
      var n := |b| - 1;
      assert (a + b)[..|a + b| - 1] == a + b[..n];
      InOrderJoin(key, a, b[..n], first, start);
      PayloadsJoin(a, b[..n]);
    }
  }

  lemma {:induction false} RunJoin(st: SessionState, a: seq<SessionEvent>, b: seq<SessionEvent>)
    ensures SessionRun(st, a + b) == SessionRun(SessionRun(st, a), b)
  {
    if b == [] {
      assert a + b == a;
    } else {
      RunJoin(st, a, b[..|b| - 1]);
      assert (a + b)[..|a + b| - 1] == a + b[..|b| - 1];
    }
  }

  lemma OpensInStep(st: SessionState, data: Option<Wire>, plain: Bytes, counter: nat)
    requires st.recvCounter <= counter < TwoTo64 - 1 && data == Some(Encrypt(st.keyB2A, plain, DirectionB2A, counter))
    ensures DecryptIncoming(st, data)
         == if st.recvCounter == counter then (st.(recvCounter := counter + 1), Some(plain)) else (st, None)
  {
    OpensExactly(st.keyB2A, plain, DirectionB2A, counter, st.recvCounter);
  }

  lemma StepInStep(st: SessionState, e: SessionEvent, counter: nat)
    requires HasPayload(e) && st.recvCounter <= counter < TwoTo64 - 1 && SealedAt(st.keyB2A, e, counter)
    ensures SessionStep(st, e).keyB2A == st.keyB2A
    ensures SessionStep(st, e).recvCounter
         == if st.recvCounter == counter && Decrypts(st, e) then counter + 1 else st.recvCounter
    ensures st.recvCounter != counter || !Decrypts(st, e) ==> SessionStep(st, e).typed == st.typed
  {
    var plain :| e.data == Some(Encrypt(st.keyB2A, plain, DirectionB2A, counter));
    OpensInStep(st, e.data, plain, counter);
  }

  lemma QuietStep(st: SessionState, e: SessionEvent)
    requires !HasPayload(e)
    ensures SessionStep(st, e).keyB2A == st.keyB2A && SessionStep(st, e).recvCounter == st.recvCounter
    ensures SessionStep(st, e).typed == st.typed && SessionStep(st, e).pending == st.pending
  {
  }

  /** Every payload meets a handler that decrypts. */
  ghost predicate AllDecrypt(st: SessionState, es: seq<SessionEvent>) {
    forall i :: 0 <= i < |es| && HasPayload(es[i]) ==> Decrypts(SessionRun(st, es[..i]), es[i])
  }

  lemma AllDecryptSnoc(st: SessionState, es: seq<SessionEvent>)
    requires es != []
    ensures var n := |es| - 1;
            AllDecrypt(st, es) <==> AllDecrypt(st, es[..n]) && (HasPayload(es[n]) ==> Decrypts(SessionRun(st, es[..n]), es[n]))
  {
    var n := |es| - 1;
    assert forall i :: 0 <= i < n ==> es[..n][..i] == es[..i] && es[..n][i] == es[i];
    if AllDecrypt(st, es) {
      forall i | 0 <= i < n && HasPayload(es[..n][i]) ensures Decrypts(SessionRun(st, es[..n][..i]), es[..n][i]) {
        assert Decrypts(SessionRun(st, es[..i]), es[i]);
      }
    }
  }

  ghost predicate StepFacts(st: SessionState, after: SessionState, n: nat, ok: bool) {
    && after.keyB2A == st.keyB2A
    && st.recvCounter <= after.recvCounter <= st.recvCounter + n
    && (after.recvCounter == st.recvCounter + n <==> ok)
  }

  lemma InStepLast(st: SessionState, before: SessionState, last: SessionEvent, n: nat, ok: bool)
    requires StepFacts(st, before, n, ok) && st.recvCounter + n + 1 < TwoTo64
    requires HasPayload(last) ==> SealedAt(st.keyB2A, last, st.recvCounter + n)
    ensures StepFacts(st, SessionStep(before, last), n + if HasPayload(last) then 1 else 0,
                      ok && (HasPayload(last) ==> Decrypts(before, last)))
  {
    if HasPayload(last) {
      StepInStep(before, last, st.recvCounter + n);
    } else {
      QuietStep(before, last);
    }
  }

  /** Payloads delivered in order, with output and replay requests anywhere between, keep the agent in
      step exactly as long as every one of them meets a handler that decrypts. */
  lemma {:induction false} InStepExactly(st: SessionState, es: seq<SessionEvent>)
    requires st.recvCounter + |es| < TwoTo64 && InOrder(st.keyB2A, es, st.recvCounter)
    ensures SessionRun(st, es).keyB2A == st.keyB2A
    ensures st.recvCounter <= SessionRun(st, es).recvCounter <= st.recvCounter + Payloads(es)
    ensures SessionRun(st, es).recvCounter == st.recvCounter + Payloads(es) <==> AllDecrypt(st, es)
  {
    if es != [] {
      var n := |es| - 1;
      InStepExactly(st, es[..n]);
      PayloadsBound(es[..n]);
      InStepLast(st, SessionRun(st, es[..n]), es[n], Payloads(es[..n]), AllDecrypt(st, es[..n]));
      AllDecryptSnoc(st, es);
    }
  }

  /** An agent that is behind the next payload opens nothing and types nothing. */
  lemma {:induction false} StaysBehind(st: SessionState, es: seq<SessionEvent>, first: nat)
    requires st.recvCounter < first && first + |es| < TwoTo64 && InOrder(st.keyB2A, es, first)
    ensures SessionRun(st, es).keyB2A == st.keyB2A
    ensures SessionRun(st, es).recvCounter == st.recvCounter && SessionRun(st, es).typed == st.typed
  {
    if es != [] {
      var n := |es| - 1;
      StaysBehind(st, es[..n], first);
      PayloadsBound(es[..n]);
      if HasPayload(es[n]) {
        StepInStep(SessionRun(st, es[..n]), es[n], first + Payloads(es[..n]));
      } else {
        QuietStep(SessionRun(st, es[..n]), es[n]);
      }
    }
  }

  lemma SnocIsStep(st: SessionState, es: seq<SessionEvent>, e: SessionEvent)
    ensures SessionRun(st, es + [e]) == SessionStep(SessionRun(st, es), e)
    ensures Payloads(es + [e]) == Payloads(es) + if HasPayload(e) then 1 else 0
  {
    assert (es + [e])[..|es|] == es;
  }

  lemma InOrderLast(key: Key, es: seq<SessionEvent>, e: SessionEvent, first: nat)
    requires InOrder(key, es + [e], first)
    ensures InOrder(key, es, first) && (HasPayload(e) ==> SealedAt(key, e, first + Payloads(es)))
  {
    assert (es + [e])[..|es|] == es;
  }

  lemma RefusedFallsBehind(st: SessionState, es: seq<SessionEvent>, refused: SessionEvent)
    requires st.recvCounter + |es| + 1 < TwoTo64 && InOrder(st.keyB2A, es + [refused], st.recvCounter)
    requires AllDecrypt(st, es) && HasPayload(refused) && !Decrypts(SessionRun(st, es), refused)
    ensures SessionRun(st, es + [refused]).keyB2A == st.keyB2A
    ensures SessionRun(st, es + [refused]).recvCounter == st.recvCounter + Payloads(es)
    ensures SessionRun(st, es + [refused]).typed == SessionRun(st, es).typed
  {
    InOrderLast(st.keyB2A, es, refused, st.recvCounter);
    InStepExactly(st, es);
    PayloadsBound(es);
    StepInStep(SessionRun(st, es), refused, st.recvCounter + Payloads(es));
    SnocIsStep(st, es, refused);
  }

  /** The first payload that meets no decrypting handler is the end of the direction: whatever follows in
      order, the counter stays where it was and nothing more is typed. */
  lemma FirstRefusalIsFinal(st: SessionState, es: seq<SessionEvent>, refused: SessionEvent, later: seq<SessionEvent>)
    requires st.recvCounter + |es| + 1 + |later| < TwoTo64
    requires InOrder(st.keyB2A, es + [refused] + later, st.recvCounter)
    requires AllDecrypt(st, es) && HasPayload(refused) && !Decrypts(SessionRun(st, es), refused)
    ensures SessionRun(st, es + [refused] + later).recvCounter == st.recvCounter + Payloads(es)
    ensures SessionRun(st, es + [refused] + later).typed == SessionRun(st, es).typed
  {
    var upTo := es + [refused];
    var start := st.recvCounter + Payloads(upTo);
    InOrderJoin(st.keyB2A, upTo, later, st.recvCounter, start);
    RefusedFallsBehind(st, es, refused);
    SnocIsStep(st, es, refused);
    PayloadsBound(es);
    StaysBehind(SessionRun(st, upTo), later, start);
    RunJoin(st, upTo, later);
  }

  lemma RefusedStart(st: SessionState, tid: string, start: Bytes, meta: Metadata, w: World)
    requires st.recvCounter < TwoTo64 - 1 && w.metadata(start) == Some(meta) && StartProblem(st, meta).Some?
    ensures var first := [TransferStart(tid, NextSealed(st, start), w)];
            && SessionRun(st, first).pending == st.pending && SessionRun(st, first).typed == st.typed
            && Payloads(first) == 1 && AllDecrypt(st, first)
  {
    var e := TransferStart(tid, NextSealed(st, start), w);
    NextSealedOpens(st, start);
    SnocIsStep(st, [], e);
    assert [] + [e] == [e];
  }

  /** An upload whose start is refused takes the session's input with it: the rest of the upload is
      dropped undecrypted, and nothing the browser sends in order afterwards opens. */
  lemma RefusedUploadIsFinal(st: SessionState, tid: string, start: Bytes, meta: Metadata, w: World,
                             next: SessionEvent, later: seq<SessionEvent>)
    requires st.recvCounter + 2 + |later| < TwoTo64 && tid !in st.pending
    requires w.metadata(start) == Some(meta) && StartProblem(st, meta).Some?
    requires (next.TransferChunk? || next.TransferEnd?) && next.tid == tid
    requires InOrder(st.keyB2A, [TransferStart(tid, NextSealed(st, start), w)] + [next] + later, st.recvCounter)
    ensures var after := SessionRun(st, [TransferStart(tid, NextSealed(st, start), w)] + [next] + later);
            after.recvCounter == st.recvCounter + 1 && after.typed == st.typed
  {
    RefusedStart(st, tid, start, meta, w);
    FirstRefusalIsFinal(st, [TransferStart(tid, NextSealed(st, start), w)], next, later);
  }

  // ---------------------------------------------------------------- what a run of handlers opens

  /** The plaintext the event's handler opened, if any. */
  function OpenedBy(st: SessionState, e: SessionEvent): seq<Bytes> {
    if !HasPayload(e) || !Decrypts(st, e) then []
    else
      match DecryptIncoming(st, e.data).1
      case None => []
      case Some(plain) => [plain]
  }

  function Opened(st: SessionState, es: seq<SessionEvent>): seq<Bytes> {
    if es == [] then []
    else Opened(st, es[..|es| - 1]) + OpenedBy(SessionRun(st, es[..|es| - 1]), es[|es| - 1])
  }

  /** What was opened as terminal input. */
  function TypedBytes(st: SessionState, es: seq<SessionEvent>): Bytes {
    if es == [] then []
    else
      var before, last := SessionRun(st, es[..|es| - 1]), es[|es| - 1];
      TypedBytes(st, es[..|es| - 1]) + if last.PtyInput? then Flatten(OpenedBy(before, last)) else []
  }

  /** The payload is one the browser sealed, as whatever message it comes, or was not sealed under its key. */
  ghost predicate FromUp(up: Up, e: SessionEvent) {
    HasPayload(e) && e.data.Some? ==> UpCarried(up, e.data.value) || !SealedUnder(up.key, e.data.value)
  }

  lemma OpeningOpens(st: SessionState, e: SessionEvent)
    requires st.recvCounter < TwoTo64 - 1
    ensures SessionStep(st, e).keyB2A == st.keyB2A
    ensures SessionStep(st, e).recvCounter == st.recvCounter + |OpenedBy(st, e)|
    ensures SessionStep(st, e).typed == st.typed + if e.PtyInput? then Flatten(OpenedBy(st, e)) else []
  {
    assert st.typed + [] == st.typed;
    if |OpenedBy(st, e)| == 1 {
      var one := OpenedBy(st, e);
      assert one[..0] == [] && Flatten(one) == one[0];
    }
  }

  /** The handler opens the next entry of the browser's log or nothing. */
  lemma OpensNextEntry(st: SessionState, e: SessionEvent, up: Up)
    requires UpSenderInv(up) && |up.log| <= TwoTo53 + 1 && up.key == st.keyB2A && st.recvCounter <= |up.log| && FromUp(up, e)
    ensures OpenedBy(st, e) == []
            || (st.recvCounter < |up.log| && OpenedBy(st, e) == [up.log[st.recvCounter].bytes])
  {
    if HasPayload(e) && e.data.Some? {
      UpOpensOnlyNext(up, e.data.value, st.recvCounter);
    }
  }

  ghost predicate OpenedPrefix(parts: seq<Bytes>, up: Up) {
    |parts| <= |up.log| && forall i :: 0 <= i < |parts| ==> parts[i] == up.log[i].bytes
  }

  lemma RunOpensOneMore(st: SessionState, before: SessionState, e: SessionEvent, up: Up, parts: seq<Bytes>, typed: Bytes)
    requires UpSenderInv(up) && |up.log| <= TwoTo53 + 1 && up.key == st.keyB2A && FromUp(up, e)
    requires before.keyB2A == st.keyB2A && before.recvCounter == |parts| && OpenedPrefix(parts, up)
    requires before.typed == st.typed + typed
    ensures SessionStep(before, e).keyB2A == st.keyB2A
    ensures SessionStep(before, e).recvCounter == |parts + OpenedBy(before, e)| && OpenedPrefix(parts + OpenedBy(before, e), up)
    ensures SessionStep(before, e).typed == st.typed + (typed + if e.PtyInput? then Flatten(OpenedBy(before, e)) else [])
  {
    OpeningOpens(before, e);
    OpensNextEntry(before, e, up);
    OneMoreOpened(parts, OpenedBy(before, e), up);
    Reassociate(st.typed, typed, if e.PtyInput? then Flatten(OpenedBy(before, e)) else []);
  }

  lemma OneMoreOpened(parts: seq<Bytes>, more: seq<Bytes>, up: Up)
    requires OpenedPrefix(parts, up) && (more == [] || (|parts| < |up.log| && more == [up.log[|parts|].bytes]))
    ensures OpenedPrefix(parts + more, up)
  {
  }

  lemma Reassociate(a: Bytes, b: Bytes, c: Bytes)
    ensures (a + b) + c == a + (b + c)
  {
  }

  lemma {:induction false} RunOpensPrefix(st: SessionState, es: seq<SessionEvent>, up: Up)
    requires UpSenderInv(up) && |up.log| <= TwoTo53 + 1 && up.key == st.keyB2A && st.recvCounter == 0
    requires forall i :: 0 <= i < |es| ==> FromUp(up, es[i])
    ensures SessionRun(st, es).keyB2A == st.keyB2A && SessionRun(st, es).recvCounter == |Opened(st, es)|
    ensures OpenedPrefix(Opened(st, es), up) && SessionRun(st, es).typed == st.typed + TypedBytes(st, es)
  {
    if es == [] {
      assert st.typed + [] == st.typed;
    } else {
      var n := |es| - 1;
      RunOpensPrefix(st, es[..n], up);
      RunOpensOneMore(st, SessionRun(st, es[..n]), es[n], up, Opened(st, es[..n]), TypedBytes(st, es[..n]));
    }
  }

  /** Every run of the agent's handlers, over any network and whatever the handlers refuse: what they open
      is a prefix of what the browser sealed, in counter order, as many as RecvCounter says, and what is
      typed is what of it came as terminal input. */
  lemma HandlersOpenPrefix(st: SessionState, es: seq<SessionEvent>, states: seq<Up>, actions: seq<UpAction>, n: nat)
    requires UpRun(states, actions) && n < |states| && |states[n].log| <= TwoTo53 + 1
    requires states[n].key == st.keyB2A && st.recvCounter == 0
    requires forall i :: 0 <= i < |es| ==> FromUp(states[n], es[i])
    ensures SessionRun(st, es).recvCounter == |Opened(st, es)| && OpenedPrefix(Opened(st, es), states[n])
    ensures SessionRun(st, es).typed == st.typed + TypedBytes(st, es)
  {
    UpRunInv(states, actions, n);
    RunOpensPrefix(st, es, states[n]);
  }

  // ---------------------------------------------------------------- an upload delivered in order

  /** What may be delivered between start and end of an upload that goes well: typing that fits,
      slices in time, output and replay requests. */
  ghost predicate Orderly(key: Key, e: SessionEvent, tid: string, buffer: Bytes, startedAt: int, counter: nat) {
    match e
    case PtyInput(n, data) => n <= MAX_PTY_PAYLOAD_BYTES * 2 && SealedAt(key, e, counter)
    case TransferChunk(t, index, data, w) =>
      && t == tid && 0 <= index < SliceCount(|buffer|) && w.now - startedAt <= TRANSFER_TIMEOUT_MS
      && data == Some(Encrypt(key, Slice(buffer, index), DirectionB2A, counter))
    case TransferStart(_, _, _) => false
    case TransferEnd(_, _, _) => false
    case _ => true
  }

  ghost predicate AllOrderly(key: Key, es: seq<SessionEvent>, tid: string, buffer: Bytes, startedAt: int, first: nat) {
    forall i: nat :: i < |es| ==> OrderlyAt(key, es, tid, buffer, startedAt, first, i)
  }

  ghost predicate OrderlyAt(key: Key, es: seq<SessionEvent>, tid: string, buffer: Bytes, startedAt: int, first: nat, i: nat)
    requires i < |es|
  {
    Orderly(key, es[i], tid, buffer, startedAt, first + Payloads(es[..i]))
  }

  /** The slices named by the chunk messages. */
  function ChunkIndexes(es: seq<SessionEvent>): seq<nat> {
    if es == [] then []
    else
      var last := es[|es| - 1];
      ChunkIndexes(es[..|es| - 1]) + if last.TransferChunk? && last.index >= 0 then [last.index] else []
  }

  lemma OrderlyStep(st: SessionState, e: SessionEvent, tid: string, buffer: Bytes, startedAt: int)
    requires tid in st.pending && st.pending[tid].createdAt == startedAt && st.recvCounter < TwoTo64 - 1
    requires Orderly(st.keyB2A, e, tid, buffer, startedAt, st.recvCounter)
    ensures Allowed(st, e, tid, buffer, startedAt)
    ensures ArrivedIndex(st, e, tid) == if e.TransferChunk? && e.index >= 0 then [e.index] else []
    ensures SessionStep(st, e).keyB2A == st.keyB2A
    ensures SessionStep(st, e).recvCounter == st.recvCounter + if HasPayload(e) then 1 else 0
  {
    match e {
      case TransferChunk(t, index, data, w) =>
        OpensInStep(st, data, Slice(buffer, index), st.recvCounter);
        assert SealedAt(st.keyB2A, e, st.recvCounter);
        StepInStep(st, e, st.recvCounter);
      case PtyInput(n, data) => StepInStep(st, e, st.recvCounter);
      case _ => QuietStep(st, e);
    }
  }

  lemma OrderlyInit(key: Key, es: seq<SessionEvent>, tid: string, buffer: Bytes, startedAt: int, first: nat, n: nat)
    requires AllOrderly(key, es, tid, buffer, startedAt, first) && n <= |es|
    ensures AllOrderly(key, es[..n], tid, buffer, startedAt, first)
  {
    forall i: nat | i < n ensures OrderlyAt(key, es[..n], tid, buffer, startedAt, first, i) {
      OrderlyInitAt(key, es, es[..n], tid, buffer, startedAt, first, i);
    }
  }

  lemma OrderlyInitAt(key: Key, es: seq<SessionEvent>, init: seq<SessionEvent>, tid: string, buffer: Bytes, startedAt: int,
                      first: nat, i: nat)
    requires init <= es && i < |init| && OrderlyAt(key, es, tid, buffer, startedAt, first, i)
    ensures OrderlyAt(key, init, tid, buffer, startedAt, first, i)
  {
    assert init[..i] == es[..i];
  }

  lemma AllowedSnoc(st: SessionState, es: seq<SessionEvent>, tid: string, buffer: Bytes, startedAt: int)
    requires es != [] && AllAllowed(st, es[..|es| - 1], tid, buffer, startedAt)
    requires Allowed(SessionRun(st, es[..|es| - 1]), es[|es| - 1], tid, buffer, startedAt)
    ensures AllAllowed(st, es, tid, buffer, startedAt)
  {
    var n := |es| - 1;
    forall i | 0 <= i < |es| ensures Allowed(SessionRun(st, es[..i]), es[i], tid, buffer, startedAt) {
      if i < n {
        assert es[..n][..i] == es[..i];
        assert Allowed(SessionRun(st, es[..n][..i]), es[..n][i], tid, buffer, startedAt);
      }
    }
  }

  lemma OrderlySnoc(st: SessionState, before: SessionState, e: SessionEvent, tid: string, buffer: Bytes, startedAt: int,
                    arrivals: seq<nat>, n: nat)
    requires Collecting(before, tid, buffer, arrivals, startedAt) && st.recvCounter + n + 1 < TwoTo64
    requires before.keyB2A == st.keyB2A && before.recvCounter == st.recvCounter + n
    requires Orderly(st.keyB2A, e, tid, buffer, startedAt, st.recvCounter + n)
    ensures Allowed(before, e, tid, buffer, startedAt)
    ensures ArrivedIndex(before, e, tid) == if e.TransferChunk? && e.index >= 0 then [e.index] else []
    ensures SessionStep(before, e).keyB2A == st.keyB2A
    ensures SessionStep(before, e).recvCounter == st.recvCounter + n + if HasPayload(e) then 1 else 0
  {
    OrderlyStep(before, e, tid, buffer, startedAt);
  }

  lemma OrderlyLast(key: Key, es: seq<SessionEvent>, tid: string, buffer: Bytes, startedAt: int, first: nat, n: nat)
    requires AllOrderly(key, es, tid, buffer, startedAt, first) && n < |es|
    ensures Orderly(key, es[n], tid, buffer, startedAt, first + Payloads(es[..n]))
  {
    assert OrderlyAt(key, es, tid, buffer, startedAt, first, n);
  }

  lemma {:induction false} OrderlyRun(st: SessionState, es: seq<SessionEvent>, tid: string, buffer: Bytes, startedAt: int)
    requires Collecting(st, tid, buffer, [], startedAt) && st.recvCounter + |es| < TwoTo64
    requires AllOrderly(st.keyB2A, es, tid, buffer, startedAt, st.recvCounter)
    ensures AllAllowed(st, es, tid, buffer, startedAt) && Arrivals(st, es, tid) == ChunkIndexes(es)
    ensures SessionRun(st, es).keyB2A == st.keyB2A && SessionRun(st, es).recvCounter == st.recvCounter + Payloads(es)
  {
    if es != [] {
      var n := |es| - 1;
      OrderlyInit(st.keyB2A, es, tid, buffer, startedAt, st.recvCounter, n);
      OrderlyRun(st, es[..n], tid, buffer, startedAt);
      EventsKeep(st, es[..n], tid, buffer, startedAt);
      PayloadsBound(es[..n]);
      OrderlyLast(st.keyB2A, es, tid, buffer, startedAt, st.recvCounter, n);
      OrderlySnoc(st, SessionRun(st, es[..n]), es[n], tid, buffer, startedAt, Arrivals(st, es[..n], tid), Payloads(es[..n]));
      AllowedSnoc(st, es, tid, buffer, startedAt);
    }
  }

  lemma StartedUpload(st: SessionState, tid: string, buffer: Bytes, start: Bytes, w: World)
    requires st.pending == map[] && st.recvCounter < TwoTo64 - 1 && 0 < |buffer| <= MAX_TRANSFER_SIZE
    requires w.metadata(start) == Some(Metadata(|buffer|, SliceCount(|buffer|)))
    ensures var started := OnStart(st, tid, NextSealed(st, start), w);
            && Collecting(started, tid, buffer, [], w.now)
            && started.keyB2A == st.keyB2A && started.recvCounter == st.recvCounter + 1
  {
    TransferStarts(st, tid, start, buffer, w);
    NextSealedOpens(st, start);
  }

  lemma EndOpens(st: SessionState, tid: string, end: Bytes, w: World)
    requires tid in st.pending && st.recvCounter < TwoTo64 - 1
    ensures OnEnd(st, tid, NextSealed(st, end), w).recvCounter == st.recvCounter + 1
  {
    NextSealedOpens(st, end);
  }

  lemma FinishUpload(started: SessionState, tid: string, buffer: Bytes, es: seq<SessionEvent>, startedAt: int,
                     end: Bytes, w': World)
    requires Collecting(started, tid, buffer, [], startedAt) && started.recvCounter + |es| + 1 < TwoTo64
    requires AllOrderly(started.keyB2A, es, tid, buffer, startedAt, started.recvCounter)
    requires EverySliceIn(buffer, ChunkIndexes(es)) && w'.endSha(end) == Some(w'.sha256(buffer)) && w'.diskOk
    ensures var last := SessionRun(started, es);
            && last.recvCounter == started.recvCounter + Payloads(es)
            && OnEnd(last, tid, NextSealed(last, end), w').sent == last.sent + [NoteOut(Completed(tid, true, buffer), last.sendCounter)]
            && OnEnd(last, tid, NextSealed(last, end), w').pending == map[]
            && OnEnd(last, tid, NextSealed(last, end), w').recvCounter == last.recvCounter + 1
  {
    OrderlyRun(started, es, tid, buffer, startedAt);
    EventsKeep(started, es, tid, buffer, startedAt);
    var last := SessionRun(started, es);
    PayloadsBound(es);
    EndOpens(last, tid, end, w');
    TransferEnds(last, tid, end, w'.sha256(buffer), w');
    EndAnswers(tid, last.pending[tid], buffer, ChunkIndexes(es), w'.sha256(buffer), w');
  }

  /** An upload and whatever is typed meanwhile, delivered in order: the buffer is saved with a matching
      checksum, and the agent is still in step. */
  lemma UploadArrives(st: SessionState, tid: string, buffer: Bytes, start: Bytes, w: World, started: SessionState,
                      es: seq<SessionEvent>, end: Bytes, w': World)
    requires 0 < |buffer| <= MAX_TRANSFER_SIZE && st.pending == map[] && st.recvCounter + |es| + 2 < TwoTo64
    requires w.metadata(start) == Some(Metadata(|buffer|, SliceCount(|buffer|)))
    requires w'.endSha(end) == Some(w'.sha256(buffer)) && w'.diskOk
    requires started == OnStart(st, tid, NextSealed(st, start), w)
    requires AllOrderly(st.keyB2A, es, tid, buffer, w.now, st.recvCounter + 1) && EverySliceIn(buffer, ChunkIndexes(es))
    ensures SessionRun(started, es).recvCounter == st.recvCounter + 1 + Payloads(es)
    ensures var last := SessionRun(started, es);
            var ended := OnEnd(last, tid, NextSealed(last, end), w');
            && ended.sent == last.sent + [NoteOut(Completed(tid, true, buffer), last.sendCounter)]
            && ended.pending == map[] && ended.recvCounter == st.recvCounter + 2 + Payloads(es)
  {
    StartedUpload(st, tid, buffer, start, w);
    FinishUpload(started, tid, buffer, es, w.now, end, w');
  }
}
