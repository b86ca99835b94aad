/** The encrypted channel of one session, as steps.

    Down is agent to browser: two goroutines share one counter, each takes a counter value and hands
    the sealed message to the socket in two separate steps, and the browser decrypts one message at a
    time from a queue. Up is browser to agent: one promise queue sends, the read loop receives.
    Between them stands a network that may drop, duplicate and reorder, change the type that travels in
    the clear beside each payload, and deliver anything that was not sealed under the key of that
    direction. */
module Channel {
  import opened Prelude
  import opened Crypto

  // ---------------------------------------------------------------- ideal primitives

  datatype Slot = KeyB2A | KeyA2B | HmacKey

  /** A 32-byte slice of the HKDF output: fixed by the shared secret, the salt text and the slice. */
  datatype Key = Key(secret: set<Bytes>, salt: Bytes, slot: Slot)

  /** A ciphertext with its tag: what was sealed, or bytes nobody sealed. */
  datatype Body = Sealed(key: Key, nonce: Bytes, plaintext: Bytes) | Noise(bits: nat)

  /** A base64-decoded payload: too short for a nonce, or nonce(12) || ciphertext. */
  datatype Wire = Short | Packet(nonce: Bytes, body: Body)

  function Encrypt(key: Key, plaintext: Bytes, direction: byte, counter: nat): Wire {
    Packet(Nonce(direction, counter), Sealed(key, Nonce(direction, counter), plaintext))
  }

  function Decrypt(key: Key, data: Wire, direction: byte, counter: nat): Option<Bytes> {
    if data.Short? || data.nonce != Nonce(direction, counter) then None
    else if data.body.Sealed? && data.body.key == key && data.body.nonce == data.nonce then Some(data.body.plaintext)
    else None
  }

  predicate SealedUnder(key: Key, data: Wire) {
    data.Packet? && data.body.Sealed? && data.body.key == key
  }

  /** Decryption at counter `j` of what was sealed at counter `i` succeeds exactly when i == j. */
  lemma OpensExactly(key: Key, plaintext: Bytes, direction: byte, i: nat, j: nat)
    requires i < TwoTo64 && j < TwoTo64
    ensures Decrypt(key, Encrypt(key, plaintext, direction, i), direction, j) == if i == j then Some(plaintext) else None
  {
    NonceInjective(direction, i, direction, j);
  }

  lemma OpensOnlySealed(key: Key, data: Wire, direction: byte, counter: nat)
    ensures Decrypt(key, data, direction, counter).Some? ==> SealedUnder(key, data)
  {
  }

  // ---------------------------------------------------------------- messages

  datatype Kind = PtyData | PtyReplay | FileNote | FilePart

  datatype Plain = Plain(kind: Kind, bytes: Bytes)
  datatype Envelope = Envelope(kind: Kind, data: Wire)

  function Seal(key: Key, direction: byte, counter: nat, p: Plain): Envelope {
    Envelope(p.kind, Encrypt(key, p.bytes, direction, counter))
  }

  const ScrollbackBytes := 1024 * 1024

  /** The last `n` bytes of `h`, or all of it. */
  function Last(h: Bytes, n: nat): Bytes {
    if |h| <= n then h else h[|h| - n..]
  }

  lemma LastIsTail(h: Bytes, n: nat)
    ensures |Last(h, n)| == if |h| < n then |h| else n
    ensures Last(h, n) == h[|h| - |Last(h, n)|..]
  {
  }

  /** The bytes of the pty.data messages, in order. */
  function Printed(log: seq<Plain>): Bytes {
    if log == [] then []
    else Printed(log[..|log| - 1]) + if log[|log| - 1].kind == PtyData then log[|log| - 1].bytes else []
  }

  // ---------------------------------------------------------------- the browser's receiving queue

  datatype Receiving = Receiving(env: Envelope, counter: nat)

  /** `jobs` is recvQueue: one decryption at a time. `inflight` holds the counter it was started with.
      Without keys a job is rejected at once. */
  datatype BrowserRecv = BrowserRecv(key: Option<Key>, counter: nat, jobs: seq<Envelope>, inflight: Option<Receiving>, shown: seq<Plain>)

  function QueueDecrypt(r: BrowserRecv, e: Envelope): BrowserRecv {
    r.(jobs := r.jobs + [e])
  }

  function BeginDecrypt(r: BrowserRecv): BrowserRecv {
    if r.inflight.Some? || r.jobs == [] then r
    else if r.key.None? then r.(jobs := r.jobs[1..])
    else r.(jobs := r.jobs[1..], inflight := Some(Receiving(r.jobs[0], r.counter)))
  }

  function FinishDecrypt(r: BrowserRecv): BrowserRecv {
    if r.inflight.None? then r
    else if r.key.None? then r.(inflight := None)
    else
      var job := r.inflight.value;
      match Decrypt(r.key.value, job.env.data, DirectionA2B, job.counter)
      case None => r.(inflight := None)
      case Some(bytes) => r.(inflight := None, counter := NextNumber(r.counter), shown := r.shown + [Plain(job.env.kind, bytes)])
  }

  /** The envelope whose decryption ends, if there is one. */
  function Finished(r: BrowserRecv): seq<Envelope> {
    if r.inflight.Some? && r.key.Some? then [r.inflight.value.env] else []
  }

  // ---------------------------------------------------------------- what deliveries come to

  /** What a receiver that starts at counter 0 accepts of the deliveries `ds`: each time, the first one
      that carries the payload of the next log entry, as the type it comes with. */
  function Fed(key: Key, direction: byte, log: seq<Plain>, ds: seq<Envelope>): (r: seq<Plain>)
    ensures |r| <= |log| && forall i :: 0 <= i < |r| ==> r[i].bytes == log[i].bytes
  {
    if ds == [] then []
    else
      var before, last := Fed(key, direction, log, ds[..|ds| - 1]), ds[|ds| - 1];
      if |before| < |log| && last.data == Encrypt(key, log[|before|].bytes, direction, |before|)
      then before + [Plain(last.kind, log[|before|].bytes)]
      else before
  }

  /** Every delivery that is the first to carry the next payload carries it as the type it was sent as. */
  predicate RightTypes(key: Key, direction: byte, log: seq<Plain>, ds: seq<Envelope>) {
    if ds == [] then true
    else
      var n, last := |Fed(key, direction, log, ds[..|ds| - 1])|, ds[|ds| - 1];
      RightTypes(key, direction, log, ds[..|ds| - 1])
      && (n < |log| && last.data == Encrypt(key, log[n].bytes, direction, n) ==> last.kind == log[n].kind)
  }

  lemma FedSnoc(key: Key, direction: byte, log: seq<Plain>, ds: seq<Envelope>, e: Envelope, before: seq<Plain>)
    requires before == Fed(key, direction, log, ds)
    ensures Fed(key, direction, log, ds + [e])
         == if |before| < |log| && e.data == Encrypt(key, log[|before|].bytes, direction, |before|)
            then before + [Plain(e.kind, log[|before|].bytes)] else before
  {
    assert (ds + [e])[..|ds|] == ds;
  }

  /** What is accepted is a prefix of the log, types included, exactly when the deliveries that were
      picked had the right types. */
  lemma {:induction false} FedIsPrefixExactly(key: Key, direction: byte, log: seq<Plain>, ds: seq<Envelope>)
    ensures Fed(key, direction, log, ds) <= log <==> RightTypes(key, direction, log, ds)
  {
    if ds != [] {
      FedIsPrefixExactly(key, direction, log, ds[..|ds| - 1]);
      var before, all := Fed(key, direction, log, ds[..|ds| - 1]), Fed(key, direction, log, ds);
      if |all| > |before| && before <= log {
        assert all <= log <==> all[|before|] == log[|before|];
      }
      assert all <= log ==> before <= log;
    }
  }

  /** Every accepted entry was delivered with the type it is accepted as. */
  lemma {:induction false} FedWasDelivered(key: Key, direction: byte, log: seq<Plain>, ds: seq<Envelope>, i: nat)
    requires i < |Fed(key, direction, log, ds)|
    ensures Envelope(Fed(key, direction, log, ds)[i].kind, Encrypt(key, log[i].bytes, direction, i)) in ds
  {
    var n := |ds| - 1;
    if i < |Fed(key, direction, log, ds[..n])| {
      FedWasDelivered(key, direction, log, ds[..n], i);
    } else {
      assert ds[n] == Envelope(ds[n].kind, ds[n].data);
    }
  }

  /** No delivery carries a payload sealed at position `n` or later. */
  ghost predicate NoneAhead(key: Key, direction: byte, ds: seq<Envelope>, n: nat) {
    forall e :: e in ds ==> NotAhead(key, direction, e, n)
  }

  ghost predicate NotAhead(key: Key, direction: byte, e: Envelope, n: nat) {
    forall p: Bytes, j: nat :: n <= j < TwoTo64 ==> e.data != Encrypt(key, p, direction, j)
  }

  /** Entries sealed later change nothing about what earlier deliveries came to. */
  lemma {:induction false} FedStays(key: Key, direction: byte, log: seq<Plain>, more: seq<Plain>, ds: seq<Envelope>)
    requires NoneAhead(key, direction, ds, |log|) && |log + more| <= TwoTo64
    ensures Fed(key, direction, log + more, ds) == Fed(key, direction, log, ds)
  {
    if ds != [] {
      var init := ds[..|ds| - 1];
      FedStays(key, direction, log, more, init);
      assert NotAhead(key, direction, ds[|ds| - 1], |log|);
    }
  }

  // ---------------------------------------------------------------- agent to browser

  datatype Thread = Reader | Loop
  /** Where a goroutine is: holding plaintext, or holding a sealed message not yet given to the socket. */
  datatype Pc = Idle | Holding(p: Plain) | Ready(env: Envelope)

  /** `output` is everything the PTY printed; `log` and `sealed` are every plaintext and its sealed
      message, in the order counters were taken, given to the socket or not; `sent` and `arrived`
      record what was ever given to, and delivered by, the network. `delivered` is what the current
      terminal has tried to decrypt, in order, and `past` the terminals that were torn down. */
  datatype Down = Down(key: Key, output: Bytes, reader: Pc, loop: Pc, counter: nat, log: seq<Plain>, sealed: seq<Envelope>,
                       sent: set<Envelope>, arrived: set<Envelope>, recv: BrowserRecv, delivered: seq<Envelope>,
                       past: seq<Terminal>)
  {
    function Pc(t: Thread): Pc { if t.Reader? then reader else loop }
    function At(t: Thread, pc: Pc): Down { if t.Reader? then this.(reader := pc) else this.(loop := pc) }
  }

  datatype Terminal = Terminal(delivered: seq<Envelope>, shown: seq<Plain>)

  /** Every terminal of the session, the current one last. */
  function Terminals(st: Down): seq<Terminal> {
    st.past + [Terminal(st.delivered, st.recv.shown)]
  }

  function DownInit(key: Key): Down {
    Down(key, [], Idle, Idle, 0, [], [], {}, {}, BrowserRecv(None, 0, [], None, []), [], [])
  }

  datatype DownAction =
    | ReadPty(bytes: Bytes)          // readPTY: Read, then Scrollback.Write
    | AnswerReplay                   // handlePtyReplayRequest: Contents
    | PrepareNote(bytes: Bytes)      // file.transfer.ack / progress / complete
    | TakeCounter(thread: Thread)    // atomic.AddUint64, then Encrypt
    | HandOver(thread: Thread)       // Send, the channel accepts
    | GiveUp(thread: Thread)         // Send, the channel stayed full for 5s
    | GetKeys                        // the browser finishes the key exchange
    | TearDown                       // the terminal goes; the next one is a new one and starts over
    | Arrive(env: Envelope)
    | StartDecrypt
    | EndDecrypt

  /** The payload is one that was sent. Its type travels in the clear, so it may have been changed. */
  ghost predicate Carried(sent: set<Envelope>, data: Wire) {
    exists kind: Kind :: Envelope(kind, data) in sent
  }

  ghost predicate DownEnabled(st: Down, a: DownAction) {
    match a
    case ReadPty(bytes) => st.reader.Idle? && bytes != []
    case AnswerReplay => st.loop.Idle? && Last(st.output, ScrollbackBytes) != []
    case PrepareNote(_) => st.loop.Idle?
    case TakeCounter(t) => st.Pc(t).Holding?
    case HandOver(t) => st.Pc(t).Ready?
    case GiveUp(t) => st.Pc(t).Ready?
    case GetKeys => st.recv.key.None?
    case TearDown => true
    case Arrive(env) => Carried(st.sent, env.data) || !SealedUnder(st.key, env.data)
    case StartDecrypt => true
    case EndDecrypt => true
  }

  function DownNext(st: Down, a: DownAction): Down
    requires DownEnabled(st, a)
  {
    match a
    case ReadPty(bytes) => st.(output := st.output + bytes, reader := Holding(Plain(PtyData, bytes)))
    case AnswerReplay => st.(loop := Holding(Plain(PtyReplay, Last(st.output, ScrollbackBytes))))
    case PrepareNote(bytes) => st.(loop := Holding(Plain(FileNote, bytes)))
    case TakeCounter(t) =>
      var env := Seal(st.key, DirectionA2B, st.counter, st.Pc(t).p);
      st.(counter := NextUint64(st.counter), log := st.log + [st.Pc(t).p], sealed := st.sealed + [env]).At(t, Ready(env))
    case HandOver(t) => st.(sent := st.sent + {st.Pc(t).env}).At(t, Idle)
    case GiveUp(t) => st.At(t, Idle)
    case GetKeys => st.(recv := st.recv.(key := Some(st.key), counter := 0))
    case TearDown =>
      st.(recv := BrowserRecv(None, 0, [], None, []), delivered := [],
          past := st.past + [Terminal(st.delivered, st.recv.shown)])
    case Arrive(env) => st.(arrived := st.arrived + {env}, recv := QueueDecrypt(st.recv, env))
    case StartDecrypt => st.(recv := BeginDecrypt(st.recv))
    case EndDecrypt => st.(recv := FinishDecrypt(st.recv), delivered := st.delivered + Finished(st.recv))
  }

  ghost predicate DownRun(states: seq<Down>, actions: seq<DownAction>) {
    && |states| == |actions| + 1 && (exists key :: states[0] == DownInit(key))
    && forall i :: 0 <= i < |actions| ==> DownEnabled(states[i], actions[i]) && states[i + 1] == DownNext(states[i], actions[i])
  }

  // ---------------------------------------------------------------- what the agent's side keeps

  /** Every sealed message sits at its own position, under the counter of that position. */
  ghost predicate SealedInOrder(st: Down) {
    && |st.sealed| == |st.log| && st.counter == CounterOfSendGo(|st.log|)
    && (forall i: nat :: i < |st.log| ==> st.sealed[i] == Seal(st.key, DirectionA2B, CounterOfSendGo(i), st.log[i]))
  }

  /** What is given to the socket was sealed. */
  ghost predicate SentWasSealed(st: Down) {
    && (forall e :: e in st.sent ==> e in st.sealed)
    && (st.reader.Ready? ==> st.reader.env in st.sealed)
    && (st.loop.Ready? ==> st.loop.env in st.sealed)
  }

  function Held(pc: Pc): Bytes {
    if pc.Holding? then pc.p.bytes else []
  }

  ghost predicate IsWindow(output: Bytes, w: Bytes) {
    exists n: nat :: n <= |output| && w == Last(output[..n], ScrollbackBytes)
  }

  /** The reader alone makes pty.data, in the order the PTY printed; replays are windows of that output. */
  ghost predicate FaithfulLog(st: Down) {
    && (st.reader.Holding? ==> st.reader.p.kind == PtyData)
    && (st.loop.Holding? ==> st.loop.p.kind != PtyData)
    && (st.loop.Holding? && st.loop.p.kind == PtyReplay ==> IsWindow(st.output, st.loop.p.bytes))
    && st.output == Printed(st.log) + Held(st.reader)
    && (forall i :: 0 <= i < |st.log| && st.log[i].kind == PtyReplay ==> IsWindow(st.output, st.log[i].bytes))
  }

  ghost predicate SenderInv(st: Down) {
    SealedInOrder(st) && SentWasSealed(st) && FaithfulLog(st)
  }

  lemma SealedInOrderStep(st: Down, a: DownAction)
    requires SealedInOrder(st) && DownEnabled(st, a)
    ensures SealedInOrder(DownNext(st, a))
  {
  }

  lemma SentWasSealedStep(st: Down, a: DownAction)
    requires SentWasSealed(st) && DownEnabled(st, a)
    ensures SentWasSealed(DownNext(st, a))
  {
    var after := DownNext(st, a);
    if a.TakeCounter? {
      assert after.sealed[|st.sealed|] == after.Pc(a.thread).env;
      forall e | e in st.sealed ensures e in after.sealed {
        StaysIn(st.sealed, [after.Pc(a.thread).env], e);
      }
    }
  }

  lemma StaysIn<T>(xs: seq<T>, more: seq<T>, x: T)
    requires x in xs
    ensures x in xs + more
  {
  }

  lemma WindowGrows(output: Bytes, more: Bytes, w: Bytes)
    requires IsWindow(output, w)
    ensures IsWindow(output + more, w)
  {
    var n: nat :| n <= |output| && w == Last(output[..n], ScrollbackBytes);
    assert (output + more)[..n] == output[..n];
  }

  lemma WindowNow(output: Bytes)
    ensures IsWindow(output, Last(output, ScrollbackBytes))
  {
    assert output[..|output|] == output;
  }

  lemma FaithfulRead(st: Down, bytes: Bytes)
    requires FaithfulLog(st) && DownEnabled(st, ReadPty(bytes))
    ensures FaithfulLog(DownNext(st, ReadPty(bytes)))
  {
    forall w | IsWindow(st.output, w) ensures IsWindow(st.output + bytes, w) { WindowGrows(st.output, bytes, w); }
  }

  lemma PrintedSnoc(log: seq<Plain>, p: Plain)
    ensures Printed(log + [p]) == Printed(log) + if p.kind == PtyData then p.bytes else []
  {
    assert (log + [p])[..|log|] == log;
  }

  lemma WindowsSnoc(output: Bytes, log: seq<Plain>, p: Plain)
    requires forall i :: 0 <= i < |log| && log[i].kind == PtyReplay ==> IsWindow(output, log[i].bytes)
    requires p.kind == PtyReplay ==> IsWindow(output, p.bytes)
    ensures forall i :: 0 <= i < |log + [p]| && (log + [p])[i].kind == PtyReplay ==> IsWindow(output, (log + [p])[i].bytes)
  {
  }

  lemma FaithfulTake(st: Down, t: Thread)
    requires FaithfulLog(st) && DownEnabled(st, TakeCounter(t))
    ensures FaithfulLog(DownNext(st, TakeCounter(t)))
  {
    var p := st.Pc(t).p;
    PrintedSnoc(st.log, p);
    WindowsSnoc(st.output, st.log, p);
    assert Printed(st.log + [p]) + [] == Printed(st.log + [p]);
    assert Printed(st.log) + [] == Printed(st.log);
  }

  lemma FaithfulLogStep(st: Down, a: DownAction)
    requires FaithfulLog(st) && DownEnabled(st, a)
    ensures FaithfulLog(DownNext(st, a))
  {
    match a {
      case ReadPty(bytes) => FaithfulRead(st, bytes);
      case TakeCounter(t) => FaithfulTake(st, t);
      case _ => WindowNow(st.output);
    }
  }

  lemma SenderStep(st: Down, a: DownAction)
    requires SenderInv(st) && DownEnabled(st, a)
    ensures SenderInv(DownNext(st, a))
  {
    SealedInOrderStep(st, a);
    SentWasSealedStep(st, a);
    FaithfulLogStep(st, a);
  }

  // ---------------------------------------------------------------- what the browser's side keeps

  /** The sealed payload of log entry `i`. */
  function Payload(st: Down, i: nat): Wire
    requires i < |st.log|
  {
    Encrypt(st.key, st.log[i].bytes, DirectionA2B, i)
  }

  /** What waits in the browser was sent by the agent, as some type, or will not open. */
  ghost predicate Expected(st: Down, e: Envelope) {
    e in st.arrived && (Carried(st.sent, e.data) || !SealedUnder(st.key, e.data))
  }

  ghost predicate AllExpected(st: Down, es: seq<Envelope>) {
    forall e :: e in es ==> Expected(st, e)
  }

  ghost predicate QueueInv(st: Down) {
    && AllExpected(st, st.recv.jobs)
    && (st.recv.inflight.Some? ==> Expected(st, st.recv.inflight.value.env) && st.recv.inflight.value.counter == st.recv.counter)
    && (st.recv.key.Some? ==> st.recv.key.value == st.key)
    && (st.recv.key.None? ==> st.recv.shown == [] && st.delivered == [])
    && st.recv.counter == |st.recv.shown|
  }

  /** What the terminal was fed is what its deliveries come to. */
  ghost predicate TerminalOk(st: Down, t: Terminal) {
    AllExpected(st, t.delivered) && t.shown == Fed(st.key, DirectionA2B, st.log, t.delivered)
  }

  ghost predicate ReceiverInv(st: Down) {
    && QueueInv(st) && TerminalOk(st, Terminal(st.delivered, st.recv.shown))
    && forall i :: 0 <= i < |st.past| ==> TerminalOk(st, st.past[i])
  }

  /** Histories only grow. */
  ghost predicate Extends(st: Down, after: Down) {
    after.key == st.key && st.log <= after.log && st.sent <= after.sent && st.arrived <= after.arrived
  }

  lemma NextExtends(st: Down, a: DownAction)
    requires DownEnabled(st, a)
    ensures Extends(st, DownNext(st, a))
  {
  }

  lemma ExpectedGrows(st: Down, after: Down, es: seq<Envelope>)
    requires Extends(st, after) && AllExpected(st, es)
    ensures AllExpected(after, es)
  {
    forall e | e in es ensures Expected(after, e) {
      assert Expected(st, e);
    }
  }

  lemma SealedBeforeWrap(st: Down, e: Envelope) returns (i: nat)
    requires SealedInOrder(st) && e in st.sealed && |st.log| < TwoTo64
    ensures i < |st.log| && e == Seal(st.key, DirectionA2B, i, st.log[i])
  {
    i :| i < |st.sealed| && st.sealed[i] == e;
    GoCounterBeforeWrap(i);
  }

  lemma CarriedPosition(st: Down, data: Wire) returns (i: nat)
    requires SealedInOrder(st) && SentWasSealed(st) && |st.log| < TwoTo64 && Carried(st.sent, data)
    ensures i < |st.log| && data == Payload(st, i)
  {
    var kind: Kind :| Envelope(kind, data) in st.sent;
    i := SealedBeforeWrap(st, Envelope(kind, data));
  }

  lemma ExpectedNotAhead(st: Down, e: Envelope)
    requires SealedInOrder(st) && SentWasSealed(st) && |st.log| < TwoTo64 && Expected(st, e)
    ensures NotAhead(st.key, DirectionA2B, e, |st.log|)
  {
    forall p: Bytes, j: nat | |st.log| <= j < TwoTo64 ensures e.data != Encrypt(st.key, p, DirectionA2B, j) {
      if Carried(st.sent, e.data) {
        var i := CarriedPosition(st, e.data);
        NonceInjective(DirectionA2B, i, DirectionA2B, j);
      }
    }
  }

  lemma TerminalStays(st: Down, after: Down, t: Terminal)
    requires SealedInOrder(st) && SentWasSealed(st) && Extends(st, after) && |st.log| < TwoTo64 && |after.log| <= TwoTo64
    requires TerminalOk(st, t)
    ensures TerminalOk(after, t)
  {
    ExpectedGrows(st, after, t.delivered);
    forall e | e in t.delivered ensures NotAhead(st.key, DirectionA2B, e, |st.log|) {
      ExpectedNotAhead(st, e);
    }
    assert after.log == st.log + after.log[|st.log|..];
    FedStays(st.key, DirectionA2B, st.log, after.log[|st.log|..], t.delivered);
  }

  lemma QueueStep(st: Down, a: DownAction)
    requires QueueInv(st) && DownEnabled(st, a) && !a.EndDecrypt?
    ensures QueueInv(DownNext(st, a))
  {
    var after := DownNext(st, a);
    NextExtends(st, a);
    ExpectedGrows(st, after, st.recv.jobs);
    if st.recv.inflight.Some? {
      ExpectedGrows(st, after, [st.recv.inflight.value.env]);
      assert st.recv.inflight.value.env in [st.recv.inflight.value.env];
    }
    if a.StartDecrypt? && st.recv.jobs != [] {
      assert st.recv.jobs[0] in st.recv.jobs;
    }
  }

  /** Of all that can wait in the queue, exactly the payload of log entry `j` opens at counter `j`. */
  lemma OpensOnlyNext(st: Down, e: Envelope, j: nat)
    requires SealedInOrder(st) && SentWasSealed(st) && Expected(st, e) && |st.log| < TwoTo64 && j <= |st.log|
    ensures Decrypt(st.key, e.data, DirectionA2B, j)
         == if j < |st.log| && e.data == Payload(st, j) then Some(st.log[j].bytes) else None
  {
    OpensOnlySealed(st.key, e.data, DirectionA2B, j);
    if Carried(st.sent, e.data) {
      var i := CarriedPosition(st, e.data);
      OpensExactly(st.key, st.log[i].bytes, DirectionA2B, i, j);
    } else if j < |st.log| {
      assert SealedUnder(st.key, Payload(st, j));
    }
  }

  lemma FinishStep(st: Down)
    requires SealedInOrder(st) && SentWasSealed(st) && |st.log| <= TwoTo53
    requires QueueInv(st) && TerminalOk(st, Terminal(st.delivered, st.recv.shown))
    ensures var after := DownNext(st, EndDecrypt);
            QueueInv(after) && TerminalOk(after, Terminal(after.delivered, after.recv.shown))
  {
    var after := DownNext(st, EndDecrypt);
    ExpectedGrows(st, after, st.recv.jobs);
    ExpectedGrows(st, after, st.delivered);
    if st.recv.inflight.Some? && st.recv.key.Some? {
      var e := st.recv.inflight.value.env;
      OpensOnlyNext(st, e, st.recv.counter);
      FedSnoc(st.key, DirectionA2B, st.log, st.delivered, e, st.recv.shown);
      ExpectedGrows(st, after, [e]);
      assert e in [e];
    } else {
      assert st.delivered + [] == st.delivered;
    }
  }

  lemma SameTerminal(st: Down, a: DownAction)
    requires DownEnabled(st, a) && !a.EndDecrypt? && !a.TearDown?
    ensures DownNext(st, a).delivered == st.delivered && DownNext(st, a).recv.shown == st.recv.shown
  {
  }

  lemma NewTerminal(st: Down)
    ensures var after := DownNext(st, TearDown);
            TerminalOk(after, Terminal(after.delivered, after.recv.shown))
  {
  }

  lemma CurrentStep(st: Down, a: DownAction)
    requires SealedInOrder(st) && SentWasSealed(st) && DownEnabled(st, a) && |DownNext(st, a).log| <= TwoTo53
    requires QueueInv(st) && TerminalOk(st, Terminal(st.delivered, st.recv.shown))
    ensures QueueInv(DownNext(st, a))
    ensures TerminalOk(DownNext(st, a), Terminal(DownNext(st, a).delivered, DownNext(st, a).recv.shown))
  {
    NextExtends(st, a);
    if a.EndDecrypt? {
      FinishStep(st);
    } else {
      QueueStep(st, a);
      if a.TearDown? {
        NewTerminal(st);
      } else {
        SameTerminal(st, a);
        TerminalStays(st, DownNext(st, a), Terminal(st.delivered, st.recv.shown));
      }
    }
  }

  lemma ReceiverStep(st: Down, a: DownAction)
    requires SealedInOrder(st) && SentWasSealed(st) && ReceiverInv(st) && DownEnabled(st, a) && |DownNext(st, a).log| <= TwoTo53
    ensures ReceiverInv(DownNext(st, a))
  {
    var after := DownNext(st, a);
    NextExtends(st, a);
    CurrentStep(st, a);
    forall i | 0 <= i < |after.past| ensures TerminalOk(after, after.past[i]) {
      TerminalStays(st, after, if i < |st.past| then st.past[i] else Terminal(st.delivered, st.recv.shown));
    }
  }

  // ---------------------------------------------------------------- every run, agent to browser

  ghost predicate DownInv(st: Down) {
    SenderInv(st) && (|st.log| <= TwoTo53 ==> ReceiverInv(st))
  }

  lemma DownStart(key: Key)
    ensures DownInv(DownInit(key))
  {
  }

  lemma DownStep(st: Down, a: DownAction)
    requires DownInv(st) && DownEnabled(st, a)
    ensures DownInv(DownNext(st, a))
  {
    SenderStep(st, a);
    NextExtends(st, a);
    if |DownNext(st, a).log| <= TwoTo53 {
      ReceiverStep(st, a);
    }
  }

  lemma {:induction false} DownRunInv(states: seq<Down>, actions: seq<DownAction>, n: nat)
    requires DownRun(states, actions) && n < |states|
    ensures DownInv(states[n])
  {
    if n == 0 {
      var key :| states[0] == DownInit(key);
      DownStart(key);
    } else {
      DownRunInv(states, actions, n - 1);
      DownStep(states[n - 1], actions[n - 1]);
    }
  }

  lemma {:induction false} TerminalRunOk(states: seq<Down>, actions: seq<DownAction>, n: nat, t: Terminal)
    requires DownRun(states, actions) && n < |states| && |states[n].log| <= TwoTo53 && t in Terminals(states[n])
    ensures TerminalOk(states[n], t) && SenderInv(states[n])
  {
    DownRunInv(states, actions, n);
  }

  /** Message `k` was delivered, as whatever type. */
  ghost predicate Delivered(st: Down, k: nat)
    requires k < |st.log|
  {
    Carried(st.arrived, Payload(st, k))
  }

  /** In every run, whatever the goroutines' interleaving and whatever the network does, changing the
      types of messages included, and however often the terminal is set up again: the plaintexts each
      terminal has accepted are those of a prefix of what was sealed, in counter order, and nothing
      after a message that never arrived. Counters are assumed not to exceed 2^53. */
  lemma AcceptedIsPrefix(states: seq<Down>, actions: seq<DownAction>, n: nat, t: Terminal)
    requires DownRun(states, actions) && n < |states| && |states[n].log| <= TwoTo53 && t in Terminals(states[n])
    ensures var st := states[n];
            && |t.shown| <= |st.log|
            && (forall i :: 0 <= i < |t.shown| ==> t.shown[i].bytes == st.log[i].bytes)
            && (forall k: nat :: k < |st.log| && !Delivered(st, k) ==> |t.shown| <= k)
  {
    TerminalRunOk(states, actions, n, t);
    var st := states[n];
    forall k: nat | k < |st.log| && k < |t.shown| ensures Delivered(st, k) {
      FedWasDelivered(st.key, DirectionA2B, st.log, t.delivered, k);
      assert Expected(st, Envelope(t.shown[k].kind, Payload(st, k)));
    }
  }

  lemma {:induction false} PrintedPrefix(log: seq<Plain>, n: nat)
    requires n <= |log|
    ensures Printed(log[..n]) <= Printed(log)
  {
    if n < |log| {
      PrintedPrefix(log[..|log| - 1], n);
      assert log[..|log| - 1][..n] == log[..n];
    } else {
      assert log[..n] == log;
    }
  }

  /** What a terminal accepted is a prefix of what was sealed, types included, exactly when, of its
      deliveries, each first one to carry the next payload carried it as the type it was sent as. Then
      the pty.data part of what the terminal is fed is a prefix of what the PTY printed, and every
      replay it is fed is the scrollback of some moment. */
  lemma AcceptedAsSentExactly(states: seq<Down>, actions: seq<DownAction>, n: nat, t: Terminal)
    requires DownRun(states, actions) && n < |states| && |states[n].log| <= TwoTo53 && t in Terminals(states[n])
    ensures var st := states[n];
            && (t.shown <= st.log <==> RightTypes(st.key, DirectionA2B, st.log, t.delivered))
            && (t.shown <= st.log ==> Printed(t.shown) <= st.output)
            && (t.shown <= st.log ==> forall i :: 0 <= i < |t.shown| && t.shown[i].kind == PtyReplay
                                        ==> IsWindow(st.output, t.shown[i].bytes))
  {
    TerminalRunOk(states, actions, n, t);
    var st := states[n];
    FedIsPrefixExactly(st.key, DirectionA2B, st.log, t.delivered);
    if t.shown <= st.log {
      PrintedPrefix(st.log, |t.shown|);
      assert st.log[..|t.shown|] == t.shown;
    }
  }

  /** No message with a sealed payload arrives with another type than it was sent with. */
  ghost predicate HonestTypes(st: Down) {
    forall e :: e in st.arrived && SealedUnder(st.key, e.data) ==> e in st.sent
  }

  lemma SentIsOwn(st: Down, i: nat, kind: Kind)
    requires SealedInOrder(st) && SentWasSealed(st) && |st.log| < TwoTo64
    requires i < |st.log| && Envelope(kind, Payload(st, i)) in st.sent
    ensures kind == st.log[i].kind
  {
    var j := SealedBeforeWrap(st, Envelope(kind, Payload(st, i)));
    NonceInjective(DirectionA2B, i, DirectionA2B, j);
  }

  lemma {:induction false} HonestMeansRight(st: Down, ds: seq<Envelope>)
    requires SealedInOrder(st) && SentWasSealed(st) && |st.log| < TwoTo64 && HonestTypes(st) && AllExpected(st, ds)
    ensures RightTypes(st.key, DirectionA2B, st.log, ds)
  {
    if ds != [] {
      var init, last := ds[..|ds| - 1], ds[|ds| - 1];
      forall e | e in init ensures Expected(st, e) { assert e in ds; }
      HonestMeansRight(st, init);
      var n := |Fed(st.key, DirectionA2B, st.log, init)|;
      if n < |st.log| && last.data == Payload(st, n) {
        assert last in ds && Expected(st, last) && SealedUnder(st.key, last.data);
        SentIsOwn(st, n, last.kind);
      }
    }
  }

  /** A network that passes types on as they are has them accepted as they were sent. */
  lemma HonestTypesAreKept(states: seq<Down>, actions: seq<DownAction>, n: nat, t: Terminal)
    requires DownRun(states, actions) && n < |states| && |states[n].log| <= TwoTo53 && t in Terminals(states[n])
    requires HonestTypes(states[n])
    ensures t.shown <= states[n].log
  {
    TerminalRunOk(states, actions, n, t);
    HonestMeansRight(states[n], t.delivered);
    FedIsPrefixExactly(states[n].key, DirectionA2B, states[n].log, t.delivered);
  }

  // ---------------------------------------------------------------- several terminals

  function Upto(n: nat): (r: seq<nat>)
    ensures |r| == n && forall i :: 0 <= i < n ==> r[i] == i
  {
    seq(n, i requires 0 <= i < n => i)
  }

  /** The log positions that were shown, terminal by terminal. */
  function Positions(ts: seq<Terminal>): seq<nat> {
    if ts == [] then [] else Positions(ts[..|ts| - 1]) + Upto(|ts[|ts| - 1].shown|)
  }

  ghost predicate OneFed(ts: seq<Terminal>) {
    forall i, j :: 0 <= i < j < |ts| ==> ts[i].shown == [] || ts[j].shown == []
  }

  ghost predicate NoneFed(ts: seq<Terminal>) {
    forall i :: 0 <= i < |ts| ==> ts[i].shown == []
  }

  lemma {:induction false} NoPositions(ts: seq<Terminal>)
    ensures Positions(ts) == [] <==> NoneFed(ts)
  {
    if ts != [] {
      NoPositions(ts[..|ts| - 1]);
      assert NoneFed(ts) <==> NoneFed(ts[..|ts| - 1]) && ts[|ts| - 1].shown == [];
    }
  }

  lemma EarlierUnfed(ts: seq<Terminal>, i: nat)
    requires OneFed(ts) && i < |ts| - 1 && ts[|ts| - 1].shown != []
    ensures ts[i].shown == []
  {
  }

  lemma OneFedSnoc(ts: seq<Terminal>)
    requires ts != []
    ensures var n := |ts| - 1;
            OneFed(ts) <==> OneFed(ts[..n]) && (ts[n].shown == [] || NoneFed(ts[..n]))
  {
    var n := |ts| - 1;
    if OneFed(ts) && ts[n].shown != [] {
      forall i | 0 <= i < n ensures ts[..n][i].shown == [] {
        EarlierUnfed(ts, i);
      }
    }
  }

  lemma StartsOver(before: seq<nat>, k: nat)
    requires before == Upto(|before|) && before != [] && k > 0
    ensures before + Upto(k) != Upto(|before| + k)
  {
    assert (before + Upto(k))[|before|] == 0;
  }

  lemma PrefixIsUpto(before: seq<nat>, k: nat)
    requires before + Upto(k) == Upto(|before| + k)
    ensures before == Upto(|before|)
  {
    forall i | 0 <= i < |before| ensures before[i] == i {
      assert (before + Upto(k))[i] == before[i];
    }
  }

  /** All terminals together are fed one prefix of the log, each entry once, exactly when at most one of
      them accepted anything: a second key exchange starts over at the first entry. */
  lemma {:induction false} OnePrefixExactly(ts: seq<Terminal>)
    ensures Positions(ts) == Upto(|Positions(ts)|) <==> OneFed(ts)
  {
    if ts != [] {
      var n := |ts| - 1;
      var before, k := Positions(ts[..n]), |ts[n].shown|;
      OnePrefixExactly(ts[..n]);
      NoPositions(ts[..n]);
      OneFedSnoc(ts);
      if before + Upto(k) == Upto(|before| + k) {
        PrefixIsUpto(before, k);
      }
      if before == [] {
        assert before + Upto(k) == Upto(k);
      } else if k == 0 {
        assert before + Upto(k) == before;
      } else if before == Upto(|before|) {
        StartsOver(before, k);
      }
    }
  }

  function DownEnd(states: seq<Down>): Down
    requires states != []
  {
    states[|states| - 1]
  }

  lemma NewRun(key: Key) returns (states: seq<Down>, actions: seq<DownAction>)
    ensures DownRun(states, actions) && DownEnd(states) == DownInit(key)
  {
    states, actions := [DownInit(key)], [];
  }

  lemma OneMoreStep(states: seq<Down>, actions: seq<DownAction>, a: DownAction)
    returns (states': seq<Down>, actions': seq<DownAction>)
    requires DownRun(states, actions) && DownEnabled(DownEnd(states), a)
    ensures DownRun(states', actions') && DownEnd(states') == DownNext(DownEnd(states), a)
  {
    states', actions' := states + [DownNext(DownEnd(states), a)], actions + [a];
    assert states'[0] == states[0];
    forall i | 0 <= i < |actions'|
      ensures DownEnabled(states'[i], actions'[i]) && states'[i + 1] == DownNext(states'[i], actions'[i])
    {
      if i < |actions| {
        assert states'[i] == states[i] && states'[i + 1] == states[i + 1] && actions'[i] == actions[i];
      }
    }
  }

  /** A message made by one goroutine, sealed and handed to the socket without interruption. */
  lemma Emit(states: seq<Down>, actions: seq<DownAction>, make: DownAction, t: Thread, p: Plain)
    returns (states': seq<Down>, actions': seq<DownAction>)
    requires DownRun(states, actions) && DownEnabled(DownEnd(states), make)
    requires DownEnd(states).Pc(t).Idle? && DownNext(DownEnd(states), make).Pc(t) == Holding(p)
    requires DownNext(DownEnd(states), make) == DownEnd(states).(output := DownNext(DownEnd(states), make).output).At(t, Holding(p))
    ensures DownRun(states', actions')
    ensures var st, after := DownEnd(states), DownEnd(states');
            var e := Seal(st.key, DirectionA2B, st.counter, p);
            after == st.(output := DownNext(st, make).output, counter := NextUint64(st.counter), log := st.log + [p],
                         sealed := st.sealed + [e], sent := st.sent + {e})
  {
    var st := DownEnd(states);
    states', actions' := OneMoreStep(states, actions, make);
    states', actions' := OneMoreStep(states', actions', TakeCounter(t));
    states', actions' := OneMoreStep(states', actions', HandOver(t));
  }

  lemma NoteIsSent(key: Key, note: Bytes) returns (states: seq<Down>, actions: seq<DownAction>)
    ensures DownRun(states, actions)
    ensures DownEnd(states)
         == DownInit(key).(counter := 1, log := [Plain(FileNote, note)],
                           sealed := [Seal(key, DirectionA2B, 0, Plain(FileNote, note))],
                           sent := {Seal(key, DirectionA2B, 0, Plain(FileNote, note))},
                           recv := BrowserRecv(Some(key), 0, [], None, []))
  {
    states, actions := NewRun(key);
    states, actions := Emit(states, actions, PrepareNote(note), Loop, Plain(FileNote, note));
    states, actions := OneMoreStep(states, actions, GetKeys);
  }

  /** The types must be kept: here a file note delivered as pty.data is fed to the terminal, although
      the PTY printed nothing. */
  lemma ChangedTypeIsAccepted(key: Key, note: Bytes) returns (states: seq<Down>, actions: seq<DownAction>)
    ensures DownRun(states, actions)
    ensures DownEnd(states).output == [] && DownEnd(states).log == [Plain(FileNote, note)]
    ensures DownEnd(states).recv.shown == [Plain(PtyData, note)]
  {
    states, actions := NoteIsSent(key, note);
    var e := Seal(key, DirectionA2B, 0, Plain(FileNote, note));
    assert Envelope(FileNote, e.data) in DownEnd(states).sent;
    states, actions := OneMoreStep(states, actions, Arrive(Envelope(PtyData, e.data)));
    Relabelled(DownEnd(states), note);
    states, actions := OneMoreStep(states, actions, StartDecrypt);
    states, actions := OneMoreStep(states, actions, EndDecrypt);
  }

  lemma Relabelled(st: Down, note: Bytes)
    requires st.recv == BrowserRecv(Some(st.key), 0, [Envelope(PtyData, Encrypt(st.key, note, DirectionA2B, 0))], None, [])
    ensures FinishDecrypt(BeginDecrypt(st.recv)) == BrowserRecv(Some(st.key), 1, [], None, [Plain(PtyData, note)])
  {
  }

  ghost predicate NoncesDiffer(sealed: seq<Envelope>)
    requires forall i :: 0 <= i < |sealed| ==> sealed[i].data.Packet?
  {
    forall i, j :: 0 <= i < j < |sealed| ==> sealed[i].data.nonce != sealed[j].data.nonce
  }

  lemma SealedArePackets(st: Down)
    requires SealedInOrder(st)
    ensures forall i :: 0 <= i < |st.sealed| ==> st.sealed[i].data.Packet?
  {
  }

  lemma NoncesFollow(sealed: seq<Envelope>, nonce: nat -> Bytes)
    requires forall i :: 0 <= i < |sealed| ==> sealed[i].data.Packet? && sealed[i].data.nonce == nonce(i)
    ensures NoncesDiffer(sealed) <==> AllDiffer(nonce, |sealed|)
  {
    if NoncesDiffer(sealed) {
      forall i: nat, j: nat | i < j < |sealed| ensures nonce(i) != nonce(j) {
        assert sealed[i].data.nonce != sealed[j].data.nonce;
      }
    }
  }

  /** In every run, over data, replays and file notes, sent or given up: the agent has sealed no two
      messages under one nonce exactly while it has sealed at most 2^64. */
  lemma NoNonceTwice(states: seq<Down>, actions: seq<DownAction>, n: nat)
    requires DownRun(states, actions) && n < |states|
    ensures forall i :: 0 <= i < |states[n].sealed| ==> states[n].sealed[i].data.Packet?
    ensures forall e :: e in states[n].sent ==> e in states[n].sealed
    ensures NoncesDiffer(states[n].sealed) <==> |states[n].sealed| <= TwoTo64
  {
    DownRunInv(states, actions, n);
    var st := states[n];
    SealedArePackets(st);
    NoncesFollow(st.sealed, NonceOfSendGo);
    NoncesDistinctExactly(|st.sealed|);
  }

  // ---------------------------------------------------------------- browser to agent

  datatype Sending = Sending(p: Plain, counter: nat)

  /** `jobs` is sendQueue. Without keys a job ends at once: the message is dropped. */
  datatype BrowserSend = BrowserSend(key: Option<Key>, counter: nat, jobs: seq<Plain>, inflight: Option<Sending>)

  function QueueSend(s: BrowserSend, p: Plain): BrowserSend {
    s.(jobs := s.jobs + [p])
  }

  function BeginSend(s: BrowserSend): BrowserSend {
    if s.inflight.Some? || s.jobs == [] then s
    else if s.key.None? then s.(jobs := s.jobs[1..])
    else s.(jobs := s.jobs[1..], inflight := Some(Sending(s.jobs[0], s.counter)))
  }

  function FinishSend(s: BrowserSend): (BrowserSend, Option<Envelope>) {
    if s.inflight.None? || s.key.None? then (s, None)
    else (s.(inflight := None, counter := NextNumber(s.counter)),
          Some(Seal(s.key.value, DirectionB2A, s.inflight.value.counter, s.inflight.value.p)))
  }

  /** The agent's read loop: `counter` is RecvCounter, `taken` what was decrypted, in order. */
  datatype AgentRecv = AgentRecv(key: Key, counter: nat, taken: seq<Plain>)

  function Receive(r: AgentRecv, e: Envelope): AgentRecv {
    match Decrypt(r.key, e.data, DirectionB2A, r.counter)
    case None => r
    case Some(bytes) => r.(counter := NextUint64(r.counter), taken := r.taken + [Plain(e.kind, bytes)])
  }

  /** `log` and `sealed` are every plaintext and its sealed message, in order; `arrived` is what reached a
      handler that decrypts, in order. */
  datatype Up = Up(key: Key, send: BrowserSend, log: seq<Plain>, sealed: seq<Envelope>, arrived: seq<Envelope>, recv: AgentRecv)

  function UpInit(key: Key): Up {
    Up(key, BrowserSend(None, 0, [], None), [], [], [], AgentRecv(key, 0, []))
  }

  datatype UpAction =
    | Establish
    | Queue(p: Plain)
    | StartEncrypt
    | EndEncrypt
    | ReachAgent(env: Envelope)      // a handler that decrypts
    | RefusedByAgent(env: Envelope)  // too large, unknown session, or a chunk without a pending transfer

  ghost predicate UpCarried(st: Up, data: Wire) {
    exists kind: Kind :: Envelope(kind, data) in st.sealed
  }

  ghost predicate UpEnabled(st: Up, a: UpAction) {
    match a
    case Establish => st.send.key.None?
    case ReachAgent(env) => UpCarried(st, env.data) || !SealedUnder(st.key, env.data)
    case RefusedByAgent(env) => UpCarried(st, env.data) || !SealedUnder(st.key, env.data)
    case _ => true
  }

  function UpNext(st: Up, a: UpAction): Up {
    match a
    case Establish => st.(send := st.send.(key := Some(st.key)))
    case Queue(p) => st.(send := QueueSend(st.send, p))
    case StartEncrypt => st.(send := BeginSend(st.send))
    case EndEncrypt =>
      var (send, out) := FinishSend(st.send);
      if out.None? then st.(send := send)
      else st.(send := send, log := st.log + [st.send.inflight.value.p], sealed := st.sealed + [out.value])
    case ReachAgent(env) => st.(arrived := st.arrived + [env], recv := Receive(st.recv, env))
    case RefusedByAgent(env) => st
  }

  ghost predicate UpRun(states: seq<Up>, actions: seq<UpAction>) {
    && |states| == |actions| + 1 && (exists key :: states[0] == UpInit(key))
    && forall i :: 0 <= i < |actions| ==> UpEnabled(states[i], actions[i]) && states[i + 1] == UpNext(states[i], actions[i])
  }

  ghost predicate UpSenderInv(st: Up) {
    && (st.send.key.Some? ==> st.send.key.value == st.key)
    && |st.sealed| == |st.log| && st.send.counter == CounterOfSendBrowser(|st.log|)
    && (st.send.inflight.Some? ==> st.send.inflight.value.counter == st.send.counter)
    && (forall i: nat :: i < |st.log| ==> st.sealed[i] == Seal(st.key, DirectionB2A, CounterOfSendBrowser(i), st.log[i]))
  }

  function UpPayload(st: Up, i: nat): Wire
    requires i < |st.log|
  {
    Encrypt(st.key, st.log[i].bytes, DirectionB2A, i)
  }

  ghost predicate UpExpected(st: Up, e: Envelope) {
    UpCarried(st, e.data) || !SealedUnder(st.key, e.data)
  }

  /** What the agent took is what the arrivals come to. */
  ghost predicate UpReceiverInv(st: Up) {
    && st.recv.key == st.key && st.recv.counter == |st.recv.taken|
    && (forall e :: e in st.arrived ==> UpExpected(st, e))
    && st.recv.taken == Fed(st.key, DirectionB2A, st.log, st.arrived)
  }

  ghost predicate UpInv(st: Up) {
    UpSenderInv(st) && (|st.log| <= TwoTo53 + 1 ==> UpReceiverInv(st))
  }

  lemma UpSealedAt(st: Up, i: nat)
    requires UpSenderInv(st) && i < |st.log| <= TwoTo53 + 1
    ensures st.sealed[i] == Envelope(st.log[i].kind, UpPayload(st, i))
  {
    CountersOfSends(i);
  }

  lemma UpCarriedPosition(st: Up, data: Wire) returns (i: nat)
    requires UpSenderInv(st) && UpCarried(st, data) && |st.log| <= TwoTo53 + 1
    ensures i < |st.log| && data == UpPayload(st, i)
  {
    var kind: Kind :| Envelope(kind, data) in st.sealed;
    i :| i < |st.sealed| && st.sealed[i] == Envelope(kind, data);
    UpSealedAt(st, i);
  }

  lemma UpNotAhead(st: Up, e: Envelope)
    requires UpSenderInv(st) && |st.log| <= TwoTo53 + 1 && UpExpected(st, e)
    ensures NotAhead(st.key, DirectionB2A, e, |st.log|)
  {
    forall p: Bytes, j: nat | |st.log| <= j < TwoTo64 ensures e.data != Encrypt(st.key, p, DirectionB2A, j) {
      if UpCarried(st, e.data) {
        var i := UpCarriedPosition(st, e.data);
        NonceInjective(DirectionB2A, i, DirectionB2A, j);
      }
    }
  }

  /** Of all that can reach the agent, exactly the payload of log entry `j` opens at counter `j`. */
  lemma UpOpensOnlyNext(st: Up, data: Wire, j: nat)
    requires UpSenderInv(st) && |st.log| <= TwoTo53 + 1 && j <= |st.log|
    requires UpCarried(st, data) || !SealedUnder(st.key, data)
    ensures Decrypt(st.key, data, DirectionB2A, j)
         == if j < |st.log| && data == UpPayload(st, j) then Some(st.log[j].bytes) else None
  {
    OpensOnlySealed(st.key, data, DirectionB2A, j);
    if UpCarried(st, data) {
      var i := UpCarriedPosition(st, data);
      OpensExactly(st.key, st.log[i].bytes, DirectionB2A, i, j);
    } else if j < |st.log| {
      assert SealedUnder(st.key, UpPayload(st, j));
    }
  }

  lemma UpSenderStep(st: Up, a: UpAction)
    requires UpSenderInv(st)
    ensures UpSenderInv(UpNext(st, a))
  {
  }

  lemma UpLogGrows(st: Up, a: UpAction)
    ensures UpNext(st, a).key == st.key && st.log <= UpNext(st, a).log && st.sealed <= UpNext(st, a).sealed
    ensures !a.ReachAgent? ==> UpNext(st, a).recv == st.recv && UpNext(st, a).arrived == st.arrived
  {
  }

  lemma UpExpectedStays(st: Up, after: Up, e: Envelope)
    requires UpExpected(st, e) && after.key == st.key && st.sealed <= after.sealed
    ensures UpExpected(after, e)
  {
    if UpCarried(st, e.data) {
      var kind: Kind :| Envelope(kind, e.data) in st.sealed;
      assert Envelope(kind, e.data) in after.sealed;
    }
  }

  lemma NoWrap(c: nat)
    requires c + 1 < TwoTo64
    ensures NextUint64(c) == c + 1
  {
  }

  /** Taking a delivery that opens exactly when it carries the next payload. */
  lemma ReceivesOne(r: AgentRecv, log: seq<Plain>, e: Envelope, next: bool)
    requires r.counter == |r.taken| && |log| < TwoTo64 && (next ==> |r.taken| < |log|)
    requires Decrypt(r.key, e.data, DirectionB2A, r.counter) == if next then Some(log[r.counter].bytes) else None
    ensures var taken := if next then r.taken + [Plain(e.kind, log[|r.taken|].bytes)] else r.taken;
            Receive(r, e) == AgentRecv(r.key, |taken|, taken)
  {
    if next { NoWrap(r.counter); }
  }

  lemma UpReceives(st: Up, env: Envelope)
    requires UpSenderInv(st) && UpReceiverInv(st) && UpEnabled(st, ReachAgent(env)) && |st.log| <= TwoTo53 + 1
    ensures var taken := Fed(st.key, DirectionB2A, st.log, st.arrived + [env]);
            Receive(st.recv, env) == AgentRecv(st.key, |taken|, taken)
  {
    var n := st.recv.counter;
    UpOpensOnlyNext(st, env.data, n);
    ReceivesOne(st.recv, st.log, env, n < |st.log| && env.data == UpPayload(st, n));
    FedSnoc(st.key, DirectionB2A, st.log, st.arrived, env, st.recv.taken);
  }

  lemma UpArrives(st: Up, env: Envelope)
    requires UpSenderInv(st) && UpReceiverInv(st) && UpEnabled(st, ReachAgent(env)) && |st.log| <= TwoTo53 + 1
    ensures UpReceiverInv(UpNext(st, ReachAgent(env)))
  {
    UpReceives(st, env);
    var after := UpNext(st, ReachAgent(env));
    forall e | e in after.arrived ensures UpExpected(after, e) {
      if e in st.arrived { UpExpectedStays(st, after, e); }
    }
  }

  lemma UpOthers(st: Up, a: UpAction)
    requires UpSenderInv(st) && UpReceiverInv(st) && !a.ReachAgent? && |UpNext(st, a).log| <= TwoTo53 + 1
    ensures UpReceiverInv(UpNext(st, a))
  {
    var after := UpNext(st, a);
    UpLogGrows(st, a);
    forall e | e in st.arrived ensures UpExpected(after, e) && NotAhead(st.key, DirectionB2A, e, |st.log|) {
      UpExpectedStays(st, after, e);
      UpNotAhead(st, e);
    }
    assert after.log == st.log + after.log[|st.log|..];
    FedStays(st.key, DirectionB2A, st.log, after.log[|st.log|..], st.arrived);
  }

  lemma {:induction false} UpRunInv(states: seq<Up>, actions: seq<UpAction>, n: nat)
    requires UpRun(states, actions) && n < |states|
    ensures UpInv(states[n])
  {
    if n > 0 {
      UpRunInv(states, actions, n - 1);
      UpLogGrows(states[n - 1], actions[n - 1]);
      UpSenderStep(states[n - 1], actions[n - 1]);
      if |states[n].log| <= TwoTo53 + 1 {
        if actions[n - 1].ReachAgent? {
          UpArrives(states[n - 1], actions[n - 1].env);
        } else {
          UpOthers(states[n - 1], actions[n - 1]);
        }
      }
    }
  }

  ghost predicate UpDelivered(st: Up, k: nat)
    requires k < |st.log|
  {
    exists kind: Kind :: Envelope(kind, UpPayload(st, k)) in st.arrived
  }

  /** In every run, over any network: the plaintexts the agent has taken are those of a prefix of what
      the browser sealed, in counter order, and nothing after a message that never reached a
      decrypting handler. */
  lemma TakenIsPrefix(states: seq<Up>, actions: seq<UpAction>, n: nat)
    requires UpRun(states, actions) && n < |states| && |states[n].log| <= TwoTo53 + 1
    ensures var st := states[n];
            && |st.recv.taken| <= |st.log|
            && (forall i :: 0 <= i < |st.recv.taken| ==> st.recv.taken[i].bytes == st.log[i].bytes)
            && (forall k: nat :: k < |st.log| && !UpDelivered(st, k) ==> |st.recv.taken| <= k)
  {
    UpRunInv(states, actions, n);
    var st := states[n];
    forall k: nat | k < |st.log| && k < |st.recv.taken| ensures UpDelivered(st, k) {
      FedWasDelivered(st.key, DirectionB2A, st.log, st.arrived, k);
      assert Envelope(st.recv.taken[k].kind, UpPayload(st, k)) in st.arrived;
    }
  }

  /** The agent has taken a prefix of what the browser sent, types included, exactly when, of the
      arrivals, each first one to carry the next payload carried it as the type it was sent as. */
  lemma TakenAsSentExactly(states: seq<Up>, actions: seq<UpAction>, n: nat)
    requires UpRun(states, actions) && n < |states| && |states[n].log| <= TwoTo53 + 1
    ensures var st := states[n];
            st.recv.taken <= st.log <==> RightTypes(st.key, DirectionB2A, st.log, st.arrived)
  {
    UpRunInv(states, actions, n);
    FedIsPrefixExactly(states[n].key, DirectionB2A, states[n].log, states[n].arrived);
  }

  lemma UpSealedArePackets(st: Up)
    requires UpSenderInv(st)
    ensures forall i :: 0 <= i < |st.sealed| ==> st.sealed[i].data.Packet?
  {
  }

  /** In every run the browser has sealed no two messages under one nonce exactly while it has sealed at
      most 2^53 + 1. */
  lemma NoNonceTwiceUp(states: seq<Up>, actions: seq<UpAction>, n: nat)
    requires UpRun(states, actions) && n < |states|
    ensures forall i :: 0 <= i < |states[n].sealed| ==> states[n].sealed[i].data.Packet?
    ensures NoncesDiffer(states[n].sealed) <==> |states[n].sealed| <= TwoTo53 + 1
  {
    UpRunInv(states, actions, n);
    var st := states[n];
    UpSealedArePackets(st);
    NoncesFollow(st.sealed, NonceOfSendBrowser);
    NoncesDistinctExactly(|st.sealed|);
  }

  // ---------------------------------------------------------------- delivery in order

  function SealedFrom(key: Key, direction: byte, first: nat, log: seq<Plain>): seq<Envelope> {
    seq(|log|, i requires 0 <= i < |log| => Seal(key, direction, first + i, log[i]))
  }

  function ReceiveAll(r: AgentRecv, es: seq<Envelope>): AgentRecv {
    if es == [] then r else Receive(ReceiveAll(r, es[..|es| - 1]), es[|es| - 1])
  }

  function ShowAll(r: BrowserRecv, es: seq<Envelope>): BrowserRecv {
    if es == [] then r else FinishDecrypt(BeginDecrypt(QueueDecrypt(ShowAll(r, es[..|es| - 1]), es[|es| - 1])))
  }

  lemma SealedSnoc(key: Key, direction: byte, first: nat, log: seq<Plain>, p: Plain)
    ensures SealedFrom(key, direction, first, log + [p])
         == SealedFrom(key, direction, first, log) + [Seal(key, direction, first + |log|, p)]
  {
  }

  lemma OneTaken(r: AgentRecv, p: Plain)
    requires r.counter + 1 < TwoTo64
    ensures Receive(r, Seal(r.key, DirectionB2A, r.counter, p)) == AgentRecv(r.key, r.counter + 1, r.taken + [p])
  {
    OpensExactly(r.key, p.bytes, DirectionB2A, r.counter, r.counter);
  }

  lemma TakenSnoc(r: AgentRecv, before: AgentRecv, init: seq<Plain>, last: Plain, es: seq<Envelope>)
    requires r.counter + |init| + 1 < TwoTo64
    requires before == ReceiveAll(r, es) && before == AgentRecv(r.key, r.counter + |init|, r.taken + init)
    ensures ReceiveAll(r, es + [Seal(r.key, DirectionB2A, r.counter + |init|, last)])
         == AgentRecv(r.key, r.counter + |init| + 1, r.taken + (init + [last]))
  {
    var e := Seal(r.key, DirectionB2A, r.counter + |init|, last);
    assert (es + [e])[..|es|] == es;
    OneTaken(before, last);
    assert (r.taken + init) + [last] == r.taken + (init + [last]);
  }

  /** What is delivered in counter order and without loss is taken in full by the agent. */
  lemma {:induction false} InOrderAllTaken(r: AgentRecv, log: seq<Plain>)
    requires r.counter + |log| < TwoTo64
    ensures ReceiveAll(r, SealedFrom(r.key, DirectionB2A, r.counter, log))
         == AgentRecv(r.key, r.counter + |log|, r.taken + log)
  {
    if log == [] {
      assert r.taken + [] == r.taken;
    } else {
      var init, last := log[..|log| - 1], log[|log| - 1];
      InOrderAllTaken(r, init);
      var es := SealedFrom(r.key, DirectionB2A, r.counter, init);
      TakenSnoc(r, ReceiveAll(r, es), init, last, es);
      SealedSnoc(r.key, DirectionB2A, r.counter, init, last);
      assert init + [last] == log;
    }
  }

  /** One message sealed at the counter the idle browser expects goes through the queue and is shown. */
  lemma OneShown(r: BrowserRecv, p: Plain)
    requires r.key.Some? && r.counter < TwoTo53 && r.jobs == [] && r.inflight.None?
    ensures FinishDecrypt(BeginDecrypt(QueueDecrypt(r, Seal(r.key.value, DirectionA2B, r.counter, p))))
         == r.(counter := r.counter + 1, shown := r.shown + [p])
  {
    OpensExactly(r.key.value, p.bytes, DirectionA2B, r.counter, r.counter);
    var e := Seal(r.key.value, DirectionA2B, r.counter, p);
    assert ([] + [e])[0] == e && ([] + [e])[1..] == [];
  }

  function Caught(r: BrowserRecv, log: seq<Plain>): BrowserRecv {
    BrowserRecv(r.key, r.counter + |log|, [], None, r.shown + log)
  }

  lemma ShowOneMore(r: BrowserRecv, es: seq<Envelope>, e: Envelope, before: BrowserRecv, p: Plain)
    requires before == ShowAll(r, es) && before.key.Some? && before.counter < TwoTo53 && before.jobs == [] && before.inflight.None?
    requires e == Seal(before.key.value, DirectionA2B, before.counter, p)
    ensures ShowAll(r, es + [e]) == BrowserRecv(before.key, before.counter + 1, [], None, before.shown + [p])
  {
    assert (es + [e])[..|es|] == es;
    OneShown(before, p);
  }

  lemma ShownSnoc(r: BrowserRecv, init: seq<Plain>, last: Plain, es: seq<Envelope>, e: Envelope)
    requires r.key.Some? && r.counter + |init| < TwoTo53 && e == Seal(r.key.value, DirectionA2B, r.counter + |init|, last)
    requires ShowAll(r, es) == Caught(r, init)
    ensures ShowAll(r, es + [e]) == Caught(r, init + [last])
  {
    ShowOneMore(r, es, e, Caught(r, init), last);
    assert (r.shown + init) + [last] == r.shown + (init + [last]);
  }

  lemma PrefixSnoc<T>(s: seq<T>, n: nat)
    requires n < |s|
    ensures s[..n] + [s[n]] == s[..n + 1]
  {
  }

  ghost predicate ComesInOrder(r: BrowserRecv, log: seq<Plain>, es: seq<Envelope>, i: nat)
    requires r.key.Some? && i < |es| == |log|
  {
    es[i] == Seal(r.key.value, DirectionA2B, r.counter + i, log[i])
  }

  lemma ShownAs(r: BrowserRecv, init: seq<Plain>, last: Plain, es: seq<Envelope>, e: Envelope, log: seq<Plain>, all: seq<Envelope>)
    requires r.key.Some? && r.counter + |init| < TwoTo53 && e == Seal(r.key.value, DirectionA2B, r.counter + |init|, last)
    requires ShowAll(r, es) == Caught(r, init) && log == init + [last] && all == es + [e]
    ensures ShowAll(r, all) == Caught(r, log)
  {
    ShownSnoc(r, init, last, es, e);
  }

  lemma OneMoreShown(r: BrowserRecv, log: seq<Plain>, es: seq<Envelope>, n: nat)
    requires r.key.Some? && r.counter + n < TwoTo53 && n < |es| == |log| && ComesInOrder(r, log, es, n)
    requires ShowAll(r, es[..n]) == Caught(r, log[..n])
    ensures ShowAll(r, es[..n + 1]) == Caught(r, log[..n + 1])
  {
    PrefixSnoc(log, n);
    PrefixSnoc(es, n);
    ShownAs(r, log[..n], log[n], es[..n], es[n], log[..n + 1], es[..n + 1]);
  }

  lemma {:induction false} AllShown(r: BrowserRecv, log: seq<Plain>, es: seq<Envelope>, n: nat)
    requires r.key.Some? && r.counter + |log| <= TwoTo53 && r.jobs == [] && r.inflight.None?
    requires |es| == |log| && n <= |log|
    requires forall i: nat :: i < |es| ==> ComesInOrder(r, log, es, i)
    ensures ShowAll(r, es[..n]) == Caught(r, log[..n])
  {
    if n == 0 {
      NoneShown(r, log, es);
    } else {
      AllShown(r, log, es, n - 1);
      OneMoreShown(r, log, es, n - 1);
    }
  }

  lemma NoneShown(r: BrowserRecv, log: seq<Plain>, es: seq<Envelope>)
    requires r.jobs == [] && r.inflight.None?
    ensures ShowAll(r, es[..0]) == Caught(r, log[..0])
  {
    assert es[..0] == [] && r.shown + [] == r.shown;
  }

  /** And shown in full by the browser, while its counter can still advance. */
  lemma InOrderAllShown(r: BrowserRecv, log: seq<Plain>)
    requires r.key.Some? && r.counter + |log| <= TwoTo53 && r.jobs == [] && r.inflight.None?
    ensures ShowAll(r, SealedFrom(r.key.value, DirectionA2B, r.counter, log))
         == BrowserRecv(r.key, r.counter + |log|, [], None, r.shown + log)
  {
    var es := SealedFrom(r.key.value, DirectionA2B, r.counter, log);
    forall i: nat | i < |es| ensures ComesInOrder(r, log, es, i) {}
    AllShown(r, log, es, |log|);
    assert es[..|log|] == es && log[..|log|] == log;
  }

  // ---------------------------------------------------------------- queues that are worked off

  /** `n` jobs of the sending queue are run one after the other: what is left, and what went out. */
  function SendJobs(s: BrowserSend, n: nat): (BrowserSend, seq<Envelope>) {
    if n == 0 then (s, [])
    else
      var (before, sent) := SendJobs(s, n - 1);
      var (after, out) := FinishSend(BeginSend(before));
      (after, sent + if out.Some? then [out.value] else [])
  }

  lemma NextNumberBelow(c: nat)
    requires c < TwoTo53
    ensures NextNumber(c) == c + 1
  {
  }

  lemma OneSends(s: BrowserSend, key: Key, p: Plain, rest: seq<Plain>)
    requires s.key == Some(key) && s.inflight.None? && s.jobs == [p] + rest && s.counter < TwoTo53
    ensures FinishSend(BeginSend(s)) == (BrowserSend(s.key, s.counter + 1, rest, None), Some(Seal(key, DirectionB2A, s.counter, p)))
  {
    assert ([p] + rest)[0] == p && ([p] + rest)[1..] == rest;
    NextNumberBelow(s.counter);
  }

  lemma OneMoreSent(s: BrowserSend, before: BrowserSend, key: Key, n: nat)
    requires s.key == Some(key) && n < |s.jobs| && s.counter + n < TwoTo53
    requires before == BrowserSend(s.key, s.counter + n, s.jobs[n..], None)
    ensures FinishSend(BeginSend(before)).0 == BrowserSend(s.key, s.counter + n + 1, s.jobs[n + 1..], None)
    ensures FinishSend(BeginSend(before)).1.Some?
    ensures SealedFrom(key, DirectionB2A, s.counter, s.jobs[..n + 1])
         == SealedFrom(key, DirectionB2A, s.counter, s.jobs[..n]) + [FinishSend(BeginSend(before)).1.value]
  {
    var p, rest := s.jobs[n], s.jobs[n + 1..];
    assert s.jobs[n..] == [p] + rest;
    OneSends(before, key, p, rest);
    PrefixSnoc(s.jobs, n);
    SealedSnoc(key, DirectionB2A, s.counter, s.jobs[..n], p);
  }

  /** What is queued goes out in the order it was queued, sealed under successive counters. */
  lemma {:induction false} QueuedAllSent(s: BrowserSend, key: Key, n: nat)
    requires s.key == Some(key) && s.inflight.None? && n <= |s.jobs| && s.counter + n <= TwoTo53
    ensures SendJobs(s, n) == (BrowserSend(s.key, s.counter + n, s.jobs[n..], None), SealedFrom(key, DirectionB2A, s.counter, s.jobs[..n]))
  {
    if n == 0 {
      assert SealedFrom(key, DirectionB2A, s.counter, s.jobs[..0]) == [] && s.jobs[0..] == s.jobs;
    } else {
      QueuedAllSent(s, key, n - 1);
      OneMoreSent(s, SendJobs(s, n - 1).0, key, n - 1);
    }
  }

  /** `n` jobs of the receiving queue are run one after the other. */
  function ShowJobs(r: BrowserRecv, n: nat): BrowserRecv {
    if n == 0 then r else FinishDecrypt(BeginDecrypt(ShowJobs(r, n - 1)))
  }

  lemma OneShows(r: BrowserRecv, key: Key, p: Plain, rest: seq<Envelope>)
    requires r.key == Some(key) && r.inflight.None? && r.counter < TwoTo53
    requires r.jobs == [Seal(key, DirectionA2B, r.counter, p)] + rest
    ensures FinishDecrypt(BeginDecrypt(r)) == BrowserRecv(r.key, r.counter + 1, rest, None, r.shown + [p])
  {
    var e := Seal(key, DirectionA2B, r.counter, p);
    assert ([e] + rest)[0] == e && ([e] + rest)[1..] == rest;
    OpensExactly(key, p.bytes, DirectionA2B, r.counter, r.counter);
    NextNumberBelow(r.counter);
  }

  lemma Joined(a: seq<Plain>, b: seq<Plain>, c: seq<Plain>)
    ensures (a + b) + c == a + (b + c)
  {
  }

  lemma OneMoreJob(r: BrowserRecv, before: BrowserRecv, key: Key, log: seq<Plain>, n: nat)
    requires r.key == Some(key) && r.counter + |log| <= TwoTo53 && n < |log|
    requires r.jobs == SealedFrom(key, DirectionA2B, r.counter, log)
    requires before == BrowserRecv(r.key, r.counter + n, r.jobs[n..], None, r.shown + log[..n])
    ensures FinishDecrypt(BeginDecrypt(before)) == BrowserRecv(r.key, r.counter + n + 1, r.jobs[n + 1..], None, r.shown + log[..n + 1])
  {
    JobAt(r, key, log, n);
    OneShows(before, key, log[n], r.jobs[n + 1..]);
    Joined(r.shown, log[..n], [log[n]]);
    PrefixSnoc(log, n);
  }

  /** Messages that wait in the queue in the order of their counters are shown in that order, all of them. */
  lemma {:induction false} QueuedAllShown(r: BrowserRecv, key: Key, log: seq<Plain>, n: nat)
    requires r.key == Some(key) && r.inflight.None? && r.counter + |log| <= TwoTo53 && n <= |log|
    requires r.jobs == SealedFrom(key, DirectionA2B, r.counter, log)
    ensures ShowJobs(r, n) == BrowserRecv(r.key, r.counter + n, r.jobs[n..], None, r.shown + log[..n])
  {
    if n == 0 {
      assert r.shown + log[..0] == r.shown && r.jobs[0..] == r.jobs;
    } else {
      QueuedAllShown(r, key, log, n - 1);
      OneMoreJob(r, ShowJobs(r, n - 1), key, log, n - 1);
    }
  }

  lemma JobAt(r: BrowserRecv, key: Key, log: seq<Plain>, i: nat)
    requires r.jobs == SealedFrom(key, DirectionA2B, r.counter, log) && i < |log|
    ensures r.jobs[i..] == [Seal(key, DirectionA2B, r.counter + i, log[i])] + r.jobs[i + 1..]
  {
  }
}
