/** The relay as a value: its three indexes, its audit log, and the effect of every event.
    Each effect is stated in closed form (which entries leave, who is written to); the loops of
    the program live in RelayService and are proved to have exactly these effects. */
module RelayModel {
  import opened Prelude

  const MAX_SESSIONS := 500
  const MAX_SESSIONS_PER_AGENT := 20
  const MAX_SESSIONS_PER_BROWSER := 5
  const SESSION_TTL_MS := 24 * 60 * 60 * 1000
  const MAX_BROWSER_CONNECTIONS := 100

  /** An identifier made by randomUUID. Only equality of identifiers matters to the program. */
  datatype Uuid = Uuid(bits: nat)
  type SessionId = Uuid
  type AgentId = Uuid
  type BrowserId = Uuid

  datatype TransferNote = Ack | Progress | Complete
  datatype TransferPart = Start | Chunk(chunkIndex: int) | End

  datatype AgentMessage =
    | Hello(name: string, os: string, identityKey: string)
    | Heartbeat
    | Created(sid: SessionId, publicKey: string, signature: string, clientReqId: Option<string>)
    | Data(sid: SessionId, payload: string)
    | Exited(sid: SessionId, exitCode: int)
    | Replay(sid: SessionId, payload: string)
    | Failed(sid: SessionId, error: string, clientReqId: Option<string>)
    | Transfer(note: TransferNote, sid: SessionId, transferId: string, payload: string)

  datatype BrowserMessage =
    | Create(agentId: AgentId, shell: Option<string>, cwd: Option<string>, publicKey: string, clientReqId: Option<string>)
    | Input(agentId: AgentId, sid: SessionId, payload: string)
    | Resize(agentId: AgentId, sid: SessionId, cols: int, rows: int, hmac: Option<string>)
    | Close(agentId: AgentId, sid: SessionId, hmac: Option<string>)
    | ReplayRequest(agentId: AgentId, sid: SessionId)
    | Upload(agentId: AgentId, sid: SessionId, part: TransferPart, transferId: string, payload: string)

  datatype ToBrowser =
    | AgentOnline(agentId: AgentId, name: string, os: string, identityKey: string)
    | AgentOffline(agentId: AgentId)
    | PtyCreated(agentId: AgentId, sid: SessionId, publicKey: string, signature: string, clientReqId: Option<string>)
    | PtyCreateError(agentId: AgentId, error: string, clientReqId: Option<string>)
    | PtyData(agentId: AgentId, sid: SessionId, payload: string)
    | PtyExited(agentId: AgentId, sid: SessionId, exitCode: int)
    | PtyReplay(agentId: AgentId, sid: SessionId, payload: string)
    | PtyError(agentId: AgentId, sid: SessionId, error: string)
    | FileTransfer(note: TransferNote, agentId: AgentId, sid: SessionId, transferId: string, payload: string)

  datatype ToAgent =
    | PtyCreate(sid: SessionId, shell: string, cwd: string, publicKey: string, clientReqId: Option<string>)
    | PtyInput(sid: SessionId, payload: string)
    | PtyResize(sid: SessionId, cols: int, rows: int, hmac: Option<string>)
    | PtyClose(sid: SessionId, hmac: Option<string>)
    | PtyReplayRequest(sid: SessionId)
    | FileUpload(sid: SessionId, part: TransferPart, transferId: string, payload: string)

  datatype CloseReason = TtlExpired | BrowserDisconnect | ExitCode(code: int) | CreateFailedOnAgent

  datatype AuditRow =
    | SessionCreate(user: Option<string>, sid: SessionId, agentId: AgentId)
    | SessionClose(sid: SessionId, reason: CloseReason)

  datatype Mapping = Mapping(agentId: AgentId, browserIds: set<BrowserId>, createdAt: int, lastActivity: int)

  /** `open` is readyState == OPEN; `sent` is what was written to the socket, oldest first. */
  datatype BrowserConn = BrowserConn(userId: int, username: string, open: bool,
                                     subscribed: set<SessionId>, sent: seq<ToBrowser>)

  /** `ws` is the identity of the socket behind the connection. */
  datatype AgentConn = AgentConn(ws: nat, open: bool, sessions: set<SessionId>, sent: seq<ToAgent>)

  /** `order` is the insertion order of the `sessions` Map, which its loops follow. */
  datatype State = State(order: seq<SessionId>,
                         sessions: map<SessionId, Mapping>,
                         browsers: map<BrowserId, BrowserConn>,
                         agents: map<AgentId, AgentConn>,
                         audits: seq<AuditRow>)

  const Initial := State([], map[], map[], map[], [])

  /** What the outside world supplies with a browser message: the clock, randomUUID and the ownership query. */
  datatype Env = Env(now: int, newSid: SessionId, owned: bool)

  datatype Event =
    | BrowserConnect(browserId: BrowserId, userId: int, username: string)
    | BrowserClosing(browserId: BrowserId)
    | BrowserClosed(browserId: BrowserId)
    | FromBrowser(browserId: BrowserId, bmsg: BrowserMessage, env: Env)
    | AgentHello(agentId: AgentId, ws: nat, hello: AgentMessage, owner: Option<int>)
    | AgentClosing(agentId: AgentId)
    | AgentClosed(agentId: AgentId, ws: nat, owner: Option<int>)
    | FromAgent(agentId: AgentId, amsg: AgentMessage, now: int, owner: Option<int>)
    | SweepStale(now: int)

  // ---------------------------------------------------------------- writing to sockets

  function Deliver(browsers: map<BrowserId, BrowserConn>, to: set<BrowserId>, msg: ToBrowser): map<BrowserId, BrowserConn> {
    map b | b in browsers :: if b in to then browsers[b].(sent := browsers[b].sent + [msg]) else browsers[b]
  }

  function OpenOnly(browsers: map<BrowserId, BrowserConn>, ids: set<BrowserId>): set<BrowserId> {
    set b | b in ids && b in browsers && browsers[b].open
  }

  function Subscribers(browsers: map<BrowserId, BrowserConn>, sid: SessionId): set<BrowserId> {
    set b | b in browsers && sid in browsers[b].subscribed && browsers[b].open
  }

  function OwnedBy(browsers: map<BrowserId, BrowserConn>, owner: Option<int>): set<BrowserId> {
    set b | b in browsers && owner == Some(browsers[b].userId) && browsers[b].open
  }

  function Unsubscribe(browsers: map<BrowserId, BrowserConn>, dead: set<SessionId>): map<BrowserId, BrowserConn> {
    map b | b in browsers :: browsers[b].(subscribed := browsers[b].subscribed - dead)
  }

  function SendToAgent(agents: map<AgentId, AgentConn>, a: AgentId, msg: ToAgent): map<AgentId, AgentConn> {
    if a in agents && agents[a].open then agents[a := agents[a].(sent := agents[a].sent + [msg])] else agents
  }

  /** A falsy clientReqId (absent or empty) is not copied into the outgoing object. */
  function Truthy(id: Option<string>): Option<string> {
    if id.Some? && id.value != "" then id else None
  }

  // ---------------------------------------------------------------- removing sessions

  function SessionsOf(st: State, a: AgentId): set<SessionId> {
    set s | s in st.sessions && st.sessions[s].agentId == a
  }

  function SessionsSeenBy(st: State, b: BrowserId): set<SessionId> {
    set s | s in st.sessions && b in st.sessions[s].browserIds
  }

  function CloseMessages(ids: seq<SessionId>): seq<ToAgent> {
    seq(|ids|, i requires 0 <= i < |ids| => PtyClose(ids[i], None))
  }

  function CloseRows(ids: seq<SessionId>, why: CloseReason): seq<AuditRow> {
    seq(|ids|, i requires 0 <= i < |ids| => SessionClose(ids[i], why))
  }

  function Released(conn: AgentConn, dead: seq<SessionId>, mine: set<SessionId>, notify: bool): AgentConn {
    AgentConn(conn.ws, conn.open, conn.sessions - (SetOf(dead) * mine),
              if notify && conn.open then conn.sent + CloseMessages(Pick(dead, mine)) else conn.sent)
  }

  /** The sessions `dead`, in that order, leave every index, and each leaves a session_close row. */
  function Removed(st: State, dead: seq<SessionId>, why: CloseReason, notify: bool): State {
    State(Pick(st.order, st.sessions.Keys - SetOf(dead)),
          st.sessions - SetOf(dead),
          Unsubscribe(st.browsers, SetOf(dead)),
          map a | a in st.agents :: Released(st.agents[a], dead, SessionsOf(st, a), notify),
          st.audits + CloseRows(dead, why))
  }

  /** The sessions `dead` leave the mapping and the subscriptions, and nothing is audited. */
  function Forgotten(st: State, dead: set<SessionId>): State {
    st.(order := Pick(st.order, st.sessions.Keys - dead), sessions := st.sessions - dead,
        browsers := Unsubscribe(st.browsers, dead))
  }

  // ---------------------------------------------------------------- events

  function Stale(st: State, now: int): set<SessionId> {
    set s | s in st.sessions && now - st.sessions[s].lastActivity > SESSION_TTL_MS
  }

  /** Browser `b` is struck from the mappings of the sessions in `ids`. */
  function WithoutBrowser(st: State, b: BrowserId, ids: set<SessionId>): State {
    st.(sessions := map s | s in st.sessions ::
                      if s in ids then st.sessions[s].(browserIds := st.sessions[s].browserIds - {b}) else st.sessions[s])
  }

  function Orphans(st: State): set<SessionId> {
    set s | s in st.sessions && st.sessions[s].browserIds == {}
  }

  function OnBrowserClosed(st: State, b: BrowserId): State {
    var gone := WithoutBrowser(st.(browsers := st.browsers - {b}), b, st.sessions.Keys);
    Removed(gone, Pick(gone.order, Orphans(gone)), BrowserDisconnect, true)
  }

  function OnAgentClosed(st: State, a: AgentId, ws: nat, owner: Option<int>): State {
    if a in st.agents && st.agents[a].ws == ws then
      Forgotten(st.(agents := st.agents - {a},
                    browsers := Deliver(st.browsers, OwnedBy(st.browsers, owner), AgentOffline(a))),
                SessionsOf(st, a))
    else st
  }

  function OnAgentHello(st: State, a: AgentId, ws: nat, hello: AgentMessage, owner: Option<int>): State {
    OnAgentMessage(st.(agents := st.agents[a := AgentConn(ws, true, {}, [])]), a, hello, 0, owner)
  }

  predicate ForbiddenInShell(c: char) {
    c in ";&|$`\\'\"(){}[]<>!#~ \t\n\r" || c == 11 as char || c == 12 as char || c == 0xA0 as char || c == 0x1680 as char
    || 0x2000 as char <= c <= 0x200A as char || c == 0x2028 as char || c == 0x2029 as char
    || c == 0x202F as char || c == 0x205F as char || c == 0x3000 as char || c == 0xFEFF as char
  }

  function OrEmpty(s: Option<string>): string {
    if s.Some? then s.value else ""
  }

  /** The error a pty.create meets before the session limits are looked at, if any. */
  function RequestError(st: State, b: BrowserId, m: BrowserMessage, owned: bool): Option<string>
    requires m.Create?
  {
    if m.agentId !in st.agents then Some("Agent not found or offline")
    else if b !in st.browsers || !owned then Some("Permission denied")
    else if exists i :: 0 <= i < |OrEmpty(m.shell)| && ForbiddenInShell(OrEmpty(m.shell)[i]) then Some("Invalid shell path")
    else if 0 as char in OrEmpty(m.cwd) then Some("Invalid working directory")
    else None
  }

  function LimitError(st: State, b: BrowserId, a: AgentId): Option<string> {
    if |st.sessions| >= MAX_SESSIONS then Some("Maximum total sessions reached")
    else if |SessionsOf(st, a)| >= MAX_SESSIONS_PER_AGENT then Some("Maximum sessions for this agent reached")
    else if |SessionsSeenBy(st, b)| >= MAX_SESSIONS_PER_BROWSER then Some("Maximum sessions per browser reached")
    else None
  }

  function CreateError(st: State, b: BrowserId, m: BrowserMessage, owned: bool): Option<string>
    requires m.Create?
  {
    var e := RequestError(st, b, m, owned);
    if e.Some? then e else LimitError(st, b, m.agentId)
  }

  /** The new session enters the mapping, the browser's subscriptions and the agent's set; the agent is told. */
  function Entered(st: State, b: BrowserId, m: BrowserMessage, sid: SessionId, now: int): State
    requires m.Create? && b in st.browsers && m.agentId in st.agents
  {
    var browser, agent := st.browsers[b], st.agents[m.agentId];
    State(st.order + [sid],
          st.sessions[sid := Mapping(m.agentId, {b}, now, now)],
          st.browsers[b := browser.(subscribed := browser.subscribed + {sid})],
          SendToAgent(st.agents[m.agentId := agent.(sessions := agent.sessions + {sid})], m.agentId,
                      PtyCreate(sid, OrEmpty(m.shell), OrEmpty(m.cwd), m.publicKey, Truthy(m.clientReqId))),
          st.audits + [SessionCreate(Some(browser.username), sid, m.agentId)])
  }

  function OnCreate(st: State, b: BrowserId, m: BrowserMessage, env: Env): State
    requires m.Create?
  {
    var e := CreateError(st, b, m, env.owned);
    if e.Some? then
      st.(browsers := Deliver(st.browsers, OpenOnly(st.browsers, {b}), PtyCreateError(m.agentId, e.value, Truthy(m.clientReqId))))
    else Entered(st, b, m, env.newSid, env.now)
  }

  predicate MayUse(st: State, b: BrowserId, m: BrowserMessage)
    requires !m.Create?
  {
    m.sid in st.sessions && st.sessions[m.sid].agentId == m.agentId && b in st.sessions[m.sid].browserIds
  }

  function Clamp(n: int): int {
    if n < 1 then 1 else if n > 500 then 500 else n
  }

  function Forward(m: BrowserMessage): ToAgent
    requires !m.Create?
  {
    match m
    case Input(_, sid, payload) => PtyInput(sid, payload)
    case Resize(_, sid, cols, rows, hmac) => PtyResize(sid, Clamp(cols), Clamp(rows), hmac)
    case Close(_, sid, hmac) => PtyClose(sid, hmac)
    case ReplayRequest(_, sid) => PtyReplayRequest(sid)
    case Upload(_, sid, part, tid, payload) => FileUpload(sid, part, tid, payload)
  }

  function Touch(st: State, sid: SessionId, now: int): State
    requires sid in st.sessions
  {
    st.(sessions := st.sessions[sid := st.sessions[sid].(lastActivity := now)])
  }

  function OnBrowserMessage(st: State, b: BrowserId, m: BrowserMessage, env: Env): State {
    if m.Create? then OnCreate(st, b, m, env)
    else if !MayUse(st, b, m) then st
    else
      var st1 := if m.Input? || m.Upload? then Touch(st, m.sid, env.now) else st;
      var st2 := if m.ReplayRequest? && b in st1.browsers
                 then st1.(browsers := st1.browsers[b := st1.browsers[b].(subscribed := st1.browsers[b].subscribed + {m.sid})])
                 else st1;
      st2.(agents := SendToAgent(st2.agents, m.agentId, Forward(m)))
  }

  predicate MayReport(st: State, a: AgentId, m: AgentMessage) {
    !m.Hello? && !m.Heartbeat? && m.sid in st.sessions && st.sessions[m.sid].agentId == a
  }

  function Report(a: AgentId, m: AgentMessage): ToBrowser
    requires !m.Hello? && !m.Heartbeat?
  {
    match m
    case Created(sid, publicKey, signature, id) => PtyCreated(a, sid, publicKey, signature, Truthy(id))
    case Data(sid, payload) => PtyData(a, sid, payload)
    case Exited(sid, code) => PtyExited(a, sid, code)
    case Replay(sid, payload) => PtyReplay(a, sid, payload)
    case Failed(sid, error, id) =>
      if Truthy(id).Some? then PtyCreateError(a, error, id) else PtyError(a, sid, error)
    case Transfer(note, sid, tid, payload) => FileTransfer(note, a, sid, tid, payload)
  }

  /** Whom the program writes to: pty.created and creation failures go through the mapping (the
      first without looking at readyState), everything else through the subscriptions. */
  function Recipients(st: State, m: AgentMessage): set<BrowserId>
    requires !m.Hello? && !m.Heartbeat? && m.sid in st.sessions
  {
    if m.Created? then st.sessions[m.sid].browserIds * st.browsers.Keys
    else if m.Failed? && Truthy(m.clientReqId).Some? then OpenOnly(st.browsers, st.sessions[m.sid].browserIds)
    else Subscribers(st.browsers, m.sid)
  }

  function OnAgentMessage(st: State, a: AgentId, m: AgentMessage, now: int, owner: Option<int>): State {
    if m.Heartbeat? then st
    else if m.Hello? then
      if a !in st.agents then st
      else st.(browsers := Deliver(st.browsers, OwnedBy(st.browsers, owner), AgentOnline(a, m.name, m.os, m.identityKey)))
    else if !MayReport(st, a, m) then st
    else
      var st1 := if m.Data? then Touch(st, m.sid, now) else st;
      var st2 := st1.(browsers := Deliver(st1.browsers, Recipients(st, m), Report(a, m)));
      if m.Exited? then Removed(st2, [m.sid], ExitCode(m.exitCode), false)
      else if m.Failed? && Truthy(m.clientReqId).Some? then Removed(st2, [m.sid], CreateFailedOnAgent, false)
      else st2
  }

  function OnBrowserConnect(st: State, b: BrowserId, userId: int, username: string): State {
    if |st.browsers| >= MAX_BROWSER_CONNECTIONS then st
    else st.(browsers := st.browsers[b := BrowserConn(userId, username, true, {}, [])])
  }

  /** The relay closes a browser's socket itself; the close event comes later. */
  function OnBrowserClosing(st: State, b: BrowserId): State {
    if b in st.browsers then st.(browsers := st.browsers[b := st.browsers[b].(open := false)]) else st
  }

  function OnAgentClosing(st: State, a: AgentId): State {
    if a in st.agents then st.(agents := st.agents[a := st.agents[a].(open := false)]) else st
  }

  function OnSweep(st: State, now: int): State {
    Removed(st, Pick(st.order, Stale(st, now)), TtlExpired, true)
  }

  function Step(st: State, e: Event): State {
    match e
    case BrowserConnect(b, userId, username) => OnBrowserConnect(st, b, userId, username)
    case BrowserClosing(b) => OnBrowserClosing(st, b)
    case BrowserClosed(b) => OnBrowserClosed(st, b)
    case FromBrowser(b, m, env) => OnBrowserMessage(st, b, m, env)
    case AgentHello(a, ws, hello, owner) => OnAgentHello(st, a, ws, hello, owner)
    case AgentClosing(a) => OnAgentClosing(st, a)
    case AgentClosed(a, ws, owner) => OnAgentClosed(st, a, ws, owner)
    case FromAgent(a, m, now, owner) => OnAgentMessage(st, a, m, now, owner)
    case SweepStale(now) => OnSweep(st, now)
  }

  // ---------------------------------------------------------------- what every run keeps

  function CreatedIds(audits: seq<AuditRow>): set<SessionId> {
    set i | 0 <= i < |audits| && audits[i].SessionCreate? :: audits[i].sid
  }

  function ClosedIds(audits: seq<AuditRow>): set<SessionId> {
    set i | 0 <= i < |audits| && audits[i].SessionClose? :: audits[i].sid
  }

  /** The `Map` the program uses: every key once, in insertion order. */
  ghost predicate OrderOk(st: State) {
    NoDuplicates(st.order) && SetOf(st.order) == st.sessions.Keys
  }

  /** randomUUID never repeats: a new session id was never created before, a new browser id is not in use. */
  ghost predicate Admissible(st: State, e: Event) {
    match e
    case BrowserConnect(b, _, _) => b !in st.browsers
    case FromBrowser(_, m, env) => m.Create? ==> env.newSid !in CreatedIds(st.audits)
    case AgentHello(_, _, hello, _) => hello.Hello?
    case _ => true
  }

  /** Exactly one browser is mapped to the session, and it is connected. */
  ghost predicate HasBrowser(st: State, s: SessionId)
    requires s in st.sessions
  {
    exists b :: b in st.browsers && st.sessions[s].browserIds == {b}
  }

  ghost predicate MappingsOk(st: State) {
    forall s :: s in st.sessions ==> HasBrowser(st, s) && st.sessions[s].agentId in st.agents
  }

  ghost predicate SubscriptionsOk(st: State) {
    forall b :: b in st.browsers ==> st.browsers[b].subscribed == SessionsSeenBy(st, b)
  }

  ghost predicate AgentSetsOk(st: State) {
    forall a :: a in st.agents ==> st.agents[a].sessions <= SessionsOf(st, a)
  }

  /** The three indexes describe the same sessions. */
  ghost predicate Coherent(st: State) {
    OrderOk(st) && MappingsOk(st) && SubscriptionsOk(st) && AgentSetsOk(st)
  }

  ghost predicate AgentLimits(st: State) {
    forall a :: a in st.agents ==> |SessionsOf(st, a)| <= MAX_SESSIONS_PER_AGENT
  }

  ghost predicate BrowserLimits(st: State) {
    && (forall b :: b in st.browsers ==> |SessionsSeenBy(st, b)| <= MAX_SESSIONS_PER_BROWSER)
    && |st.browsers| <= MAX_BROWSER_CONNECTIONS
  }

  ghost predicate WithinLimits(st: State) {
    AgentLimits(st) && BrowserLimits(st)
  }

  /** Every id is created at most once and closed at most once, and only after being created. */
  ghost predicate Accounted(st: State) {
    && (forall i, j :: 0 <= i < j < |st.audits| && st.audits[i].SessionCreate? && st.audits[j].SessionCreate?
          ==> st.audits[i].sid != st.audits[j].sid)
    && (forall i, j :: 0 <= i < j < |st.audits| && st.audits[i].SessionClose? && st.audits[j].SessionClose?
          ==> st.audits[i].sid != st.audits[j].sid)
    && ClosedIds(st.audits) <= CreatedIds(st.audits)
    && st.sessions.Keys <= CreatedIds(st.audits)
    && st.sessions.Keys !! ClosedIds(st.audits)
  }

  ghost predicate Invariant(st: State) {
    Coherent(st) && WithinLimits(st) && Accounted(st)
  }

  /** Created, neither live nor closed with an audit row. */
  function Lost(st: State): set<SessionId> {
    CreatedIds(st.audits) - st.sessions.Keys - ClosedIds(st.audits)
  }

  ghost predicate Run(states: seq<State>, events: seq<Event>) {
    && |states| == |events| + 1 && states[0] == Initial
    && forall i :: 0 <= i < |events| ==> Admissible(states[i], events[i]) && states[i + 1] == Step(states[i], events[i])
  }
}
