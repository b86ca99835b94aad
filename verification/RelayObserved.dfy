/** The relay as those it serves see it: one session, one browser, one agent, the audit log. What an
    event means to each of them is said here by the fields of the event and of the state before it,
    without the functions by which RelayModel computes the state after it. */
module RelayObserved {
  import opened Prelude
  import opened RelayModel
  import opened RelayProofs

  // ---------------------------------------------------------------- which requests are granted

  /** A character the shell path must not contain, by code point. */
  predicate Metacharacter(u: int) {
    || 9 <= u <= 13 || 32 <= u <= 36 || 38 <= u <= 41 || u == 59 || u == 60 || u == 62 || 91 <= u <= 93 || u == 96
    || 123 <= u <= 126 || u == 160 || u == 0x1680 || 0x2000 <= u <= 0x200A || u == 0x2028 || u == 0x2029 || u == 0x202F
    || u == 0x205F || u == 0x3000 || u == 0xFEFF
  }

  predicate ShellOk(shell: Option<string>) {
    shell.Some? ==> forall i :: 0 <= i < |shell.value| ==> !Metacharacter(shell.value[i] as int)
  }

  predicate CwdOk(cwd: Option<string>) {
    cwd.Some? ==> forall i :: 0 <= i < |cwd.value| ==> cwd.value[i] as int != 0
  }

  predicate Allowed(st: State, b: BrowserId, env: Env) {
    b in st.browsers && env.owned
  }

  function CountOfAgent(st: State, a: AgentId): nat {
    |set s | s in st.sessions && st.sessions[s].agentId == a|
  }

  function CountOfBrowser(st: State, b: BrowserId): nat {
    |set s | s in st.sessions && b in st.sessions[s].browserIds|
  }

  predicate Granted(st: State, b: BrowserId, m: BrowserMessage, env: Env)
    requires m.Create?
  {
    && m.agentId in st.agents && Allowed(st, b, env) && ShellOk(m.shell) && CwdOk(m.cwd)
    && |st.sessions| < 500 && CountOfAgent(st, m.agentId) < 20 && CountOfBrowser(st, b) < 5
  }

  /** The error of a request that is not granted: what it met first. */
  predicate RefusedFor(st: State, b: BrowserId, m: BrowserMessage, env: Env, error: string)
    requires m.Create?
  {
    || (error == "Agent not found or offline" && m.agentId !in st.agents)
    || (m.agentId in st.agents
        && ((error == "Permission denied" && !Allowed(st, b, env))
            || (Allowed(st, b, env)
                && ((error == "Invalid shell path" && !ShellOk(m.shell))
                    || (error == "Invalid working directory" && ShellOk(m.shell) && !CwdOk(m.cwd))
                    || (ShellOk(m.shell) && CwdOk(m.cwd) && OverLimit(st, b, m.agentId, error))))))
  }

  predicate OverLimit(st: State, b: BrowserId, a: AgentId, error: string) {
    || (error == "Maximum total sessions reached" && |st.sessions| >= 500)
    || (error == "Maximum sessions for this agent reached" && |st.sessions| < 500 && CountOfAgent(st, a) >= 20)
    || (error == "Maximum sessions per browser reached" && |st.sessions| < 500 && CountOfAgent(st, a) < 20
        && CountOfBrowser(st, b) >= 5)
  }

  /** An absent or empty request id is left out of messages. */
  function IdField(given: Option<string>): Option<string> {
    if given.Some? && |given.value| > 0 then given else None
  }

  lemma ForbiddenIsMetacharacter(c: char)
    ensures ForbiddenInShell(c) <==> Metacharacter(c as int)
  {
  }

  lemma ShellChecked(shell: Option<string>)
    ensures ShellOk(shell) <==> !exists i :: 0 <= i < |OrEmpty(shell)| && ForbiddenInShell(OrEmpty(shell)[i])
  {
    var text := OrEmpty(shell);
    forall i | 0 <= i < |text| ensures ForbiddenInShell(text[i]) <==> Metacharacter(text[i] as int) {
      ForbiddenIsMetacharacter(text[i]);
    }
    if i :| 0 <= i < |text| && ForbiddenInShell(text[i]) {
      assert Metacharacter(shell.value[i] as int);
    }
  }

  lemma CwdChecked(cwd: Option<string>)
    ensures CwdOk(cwd) <==> 0 as char !in OrEmpty(cwd)
  {
    if cwd.Some? && CwdOk(cwd) {
      forall i | 0 <= i < |cwd.value| ensures cwd.value[i] != 0 as char {
        assert cwd.value[i] as int != 0;
      }
    }
  }

  lemma GrantedExactly(st: State, b: BrowserId, m: BrowserMessage, env: Env)
    requires m.Create?
    ensures Granted(st, b, m, env) <==> CreateError(st, b, m, env.owned).None?
    ensures !Granted(st, b, m, env) ==> RefusedFor(st, b, m, env, CreateError(st, b, m, env.owned).value)
  {
    ShellChecked(m.shell);
    CwdChecked(m.cwd);
    assert SessionsOf(st, m.agentId) == set s | s in st.sessions && st.sessions[s].agentId == m.agentId;
    assert SessionsSeenBy(st, b) == set s | s in st.sessions && b in st.sessions[s].browserIds;
  }

  /** A pty.create under a fresh id makes the session exactly when every check passes: the mapping gets
      this one entry and the log this one row. Otherwise no index and no row changes, and nobody but the
      asking browser hears of it: it is told, if its socket is open, what the request met first. */
  lemma CreateExactly(st: State, b: BrowserId, m: BrowserMessage, env: Env)
    requires m.Create? && env.newSid !in st.sessions
    ensures var after := Step(st, FromBrowser(b, m, env));
            && (env.newSid in after.sessions <==> Granted(st, b, m, env))
            && (Granted(st, b, m, env) ==> Began(st, after, b, m, env))
            && (!Granted(st, b, m, env) ==> exists error :: RefusedFor(st, b, m, env, error) && Denied(st, after, b, m, error))
  {
    GrantedExactly(st, b, m, env);
    if Granted(st, b, m, env) {
      EnteredIsBegan(st, b, m, env);
    } else {
      DeniedBy(st, b, m, env, CreateError(st, b, m, env.owned).value);
    }
  }

  ghost predicate Began(st: State, after: State, b: BrowserId, m: BrowserMessage, env: Env)
    requires m.Create? && b in st.browsers && m.agentId in st.agents
  {
    && after.sessions == st.sessions[env.newSid := Mapping(m.agentId, {b}, env.now, env.now)]
    && after.order == st.order + [env.newSid]
    && after.audits == st.audits + [SessionCreate(Some(st.browsers[b].username), env.newSid, m.agentId)]
    && b in after.browsers && after.browsers[b].subscribed == st.browsers[b].subscribed + {env.newSid}
    && m.agentId in after.agents && after.agents[m.agentId].sessions == st.agents[m.agentId].sessions + {env.newSid}
    && after.agents[m.agentId].sent
       == st.agents[m.agentId].sent
          + if st.agents[m.agentId].open
            then [PtyCreate(env.newSid, if m.shell.Some? then m.shell.value else "", if m.cwd.Some? then m.cwd.value else "",
                            m.publicKey, IdField(m.clientReqId))]
            else []
  }

  ghost predicate Denied(st: State, after: State, b: BrowserId, m: BrowserMessage, error: string)
    requires m.Create?
  {
    && after.sessions == st.sessions && after.agents == st.agents && after.audits == st.audits && after.order == st.order
    && after.browsers.Keys == st.browsers.Keys
    && (forall x :: x in st.browsers ==>
          after.browsers[x]
          == if x == b && st.browsers[x].open
             then st.browsers[x].(sent := st.browsers[x].sent + [PtyCreateError(m.agentId, error, IdField(m.clientReqId))])
             else st.browsers[x])
  }

  lemma EnteredIsBegan(st: State, b: BrowserId, m: BrowserMessage, env: Env)
    requires m.Create? && env.newSid !in st.sessions && CreateError(st, b, m, env.owned).None? && Granted(st, b, m, env)
    ensures Began(st, Step(st, FromBrowser(b, m, env)), b, m, env)
  {
    assert Step(st, FromBrowser(b, m, env)) == Entered(st, b, m, env.newSid, env.now);
  }

  lemma DeniedBy(st: State, b: BrowserId, m: BrowserMessage, env: Env, error: string)
    requires m.Create? && CreateError(st, b, m, env.owned) == Some(error)
    ensures Denied(st, Step(st, FromBrowser(b, m, env)), b, m, error)
  {
  }

  // ---------------------------------------------------------------- one session

  /** The event makes the session. */
  predicate Starts(st: State, e: Event, sid: SessionId) {
    e.FromBrowser? && e.bmsg.Create? && e.env.newSid == sid && Granted(st, e.browserId, e.bmsg, e.env)
  }

  /** Input or output of a session, or a part of an upload to it: its agent's pty.data, its browser's
      pty.data and file.transfer messages. */
  predicate Uses(e: Event, a: AgentId, b: BrowserId, sid: SessionId) {
    || (e.FromAgent? && e.agentId == a && e.amsg.Data? && e.amsg.sid == sid)
    || (e.FromBrowser? && e.browserId == b && (e.bmsg.Input? || e.bmsg.Upload?) && e.bmsg.sid == sid && e.bmsg.agentId == a)
  }

  /** Its agent says that the shell ended, or that it could not be started. */
  predicate Finishes(e: Event, a: AgentId, sid: SessionId) {
    && e.FromAgent? && e.agentId == a
    && ((e.amsg.Exited? && e.amsg.sid == sid)
        || (e.amsg.Failed? && e.amsg.sid == sid && e.amsg.clientReqId.Some? && |e.amsg.clientReqId.value| > 0))
  }

  predicate Disconnects(st: State, e: Event, a: AgentId) {
    e.AgentClosed? && e.agentId == a && a in st.agents && st.agents[a].ws == e.ws
  }

  /** What ends a session of agent `a` and browser `b` that was used last at `last`. */
  predicate Ends(st: State, e: Event, a: AgentId, b: BrowserId, sid: SessionId, last: int) {
    || Finishes(e, a, sid)
    || (e.BrowserClosed? && e.browserId == b)
    || Disconnects(st, e, a)
    || (e.SweepStale? && e.now - last > 24 * 60 * 60 * 1000)
  }

  function TimeOf(e: Event): int {
    match e
    case FromBrowser(_, _, env) => env.now
    case FromAgent(_, _, now, _) => now
    case SweepStale(now) => now
    case _ => 0
  }

  /** What becomes of one mapping. */
  ghost predicate Follows(st: State, e: Event, after: State, sid: SessionId, b: BrowserId)
    requires sid in st.sessions
  {
    var was := st.sessions[sid];
    && (sid in after.sessions <==> !Ends(st, e, was.agentId, b, sid, was.lastActivity))
    && (sid in after.sessions ==>
          after.sessions[sid] == if Uses(e, was.agentId, b, sid) then was.(lastActivity := TimeOf(e)) else was)
  }

  lemma AfterBrowserMessage(st: State, e: Event, sid: SessionId, b: BrowserId)
    requires e.FromBrowser? && !e.bmsg.Create? && sid in st.sessions && st.sessions[sid].browserIds == {b}
    ensures Follows(st, e, Step(st, e), sid, b)
  {
  }

  lemma AfterCreate(st: State, e: Event, sid: SessionId, b: BrowserId)
    requires e.FromBrowser? && e.bmsg.Create? && sid in st.sessions && e.env.newSid !in st.sessions
    ensures Follows(st, e, Step(st, e), sid, b)
  {
    CreateExactly(st, e.browserId, e.bmsg, e.env);
  }

  lemma AfterAgentMessage(st: State, e: Event, sid: SessionId, b: BrowserId)
    requires e.FromAgent? && sid in st.sessions
    ensures Follows(st, e, Step(st, e), sid, b)
  {
    var m := e.amsg;
    if !m.Hello? && !m.Heartbeat? {
      assert SetOf([m.sid]) == {m.sid};
    }
  }

  /** `Follows`, when the sessions after the event are those before it without `dead`. */
  lemma AfterRemoval(st: State, e: Event, after: State, dead: set<SessionId>, sid: SessionId, b: BrowserId)
    requires sid in st.sessions && after.sessions == st.sessions - dead
    requires !e.FromAgent? && !e.FromBrowser?
    requires sid in dead <==> Ends(st, e, st.sessions[sid].agentId, b, sid, st.sessions[sid].lastActivity)
    ensures Follows(st, e, after, sid, b)
  {
  }

  lemma AfterSweep(st: State, e: Event, sid: SessionId, b: BrowserId)
    requires Coherent(st) && e.SweepStale? && sid in st.sessions
    ensures Follows(st, e, Step(st, e), sid, b)
  {
    SweepIsExact(st, e.now);
    AfterRemoval(st, e, OnSweep(st, e.now), Stale(st, e.now), sid, b);
  }

  lemma AfterBrowserClosed(st: State, e: Event, sid: SessionId, b: BrowserId)
    requires Coherent(st) && e.BrowserClosed? && sid in st.sessions && st.sessions[sid].browserIds == {b}
    ensures Follows(st, e, Step(st, e), sid, b)
  {
    BrowserCleanupIsExact(st, e.browserId);
    AfterRemoval(st, e, OnBrowserClosed(st, e.browserId), SessionsSeenBy(st, e.browserId), sid, b);
  }

  lemma AfterAgentClosed(st: State, e: Event, sid: SessionId, b: BrowserId)
    requires e.AgentClosed? && sid in st.sessions
    ensures Follows(st, e, Step(st, e), sid, b)
  {
  }

  lemma AfterOther(st: State, e: Event, sid: SessionId, b: BrowserId)
    requires sid in st.sessions
    requires e.BrowserConnect? || e.BrowserClosing? || e.AgentClosing? || (e.AgentHello? && e.hello.Hello?)
    ensures Follows(st, e, Step(st, e), sid, b)
  {
  }

  /** A live session ends with the first event that is its end, and its mapping changes only with use. */
  lemma SessionFollows(st: State, e: Event, sid: SessionId, b: BrowserId)
    requires Invariant(st) && Admissible(st, e) && sid in st.sessions && st.sessions[sid].browserIds == {b}
    ensures Follows(st, e, Step(st, e), sid, b)
  {
    match e {
      case FromBrowser(_, m, env) =>
        if m.Create? {
          assert env.newSid !in st.sessions.Keys;
          AfterCreate(st, e, sid, b);
        } else {
          AfterBrowserMessage(st, e, sid, b);
        }
      case FromAgent(_, _, _, _) => AfterAgentMessage(st, e, sid, b);
      case SweepStale(_) => AfterSweep(st, e, sid, b);
      case BrowserClosed(_) => AfterBrowserClosed(st, e, sid, b);
      case AgentClosed(_, _, _) => AfterAgentClosed(st, e, sid, b);
      case _ => AfterOther(st, e, sid, b);
    }
  }

  lemma StartsFromNothing(st: State, e: Event, sid: SessionId)
    requires Coherent(st) && sid !in st.sessions && Admissible(st, e)
    ensures sid in Step(st, e).sessions <==> Starts(st, e, sid)
    ensures Starts(st, e, sid) ==> Step(st, e).sessions[sid] == Mapping(e.bmsg.agentId, {e.browserId}, TimeOf(e), TimeOf(e))
  {
    match e {
      case FromBrowser(b, m, env) =>
        if m.Create? && env.newSid !in st.sessions { CreateExactly(st, b, m, env); }
      case SweepStale(now) => SweepIsExact(st, now);
      case BrowserClosed(b) => BrowserCleanupIsExact(st, b);
      case _ =>
    }
  }

  // ---------------------------------------------------------------- a session over whole runs

  /** Event `c` makes session `sid` of agent `a` and browser `b`. */
  ghost predicate StartedAt(states: seq<State>, events: seq<Event>, c: nat, sid: SessionId, a: AgentId, b: BrowserId) {
    && c < |events| && c < |states| && Starts(states[c], events[c], sid)
    && events[c].bmsg.agentId == a && events[c].browserId == b
  }

  /** The time of the latest of events c..n-1 that is the session's start or uses it. */
  function LatestUse(events: seq<Event>, c: nat, n: nat, a: AgentId, b: BrowserId, sid: SessionId): int
    requires c < n <= |events|
    decreases n
  {
    if n == c + 1 || Uses(events[n - 1], a, b, sid) then TimeOf(events[n - 1]) else LatestUse(events, c, n - 1, a, b, sid)
  }

  /** Event `k` ends the session that event `c` made. */
  ghost predicate EndsAt(states: seq<State>, events: seq<Event>, c: nat, k: nat, sid: SessionId, a: AgentId, b: BrowserId) {
    c < k < |events| && k < |states| && Ends(states[k], events[k], a, b, sid, LatestUse(events, c, k, a, b, sid))
  }

  ghost predicate LivesAs(st: State, sid: SessionId, m: Mapping) {
    sid in st.sessions && st.sessions[sid] == m
  }

  lemma LivesOn(st: State, e: Event, sid: SessionId, m: Mapping, b: BrowserId)
    requires Invariant(st) && Admissible(st, e) && LivesAs(st, sid, m) && m.browserIds == {b}
    ensures sid in Step(st, e).sessions <==> !Ends(st, e, m.agentId, b, sid, m.lastActivity)
    ensures sid in Step(st, e).sessions ==>
              LivesAs(Step(st, e), sid, if Uses(e, m.agentId, b, sid) then m.(lastActivity := TimeOf(e)) else m)
  {
    SessionFollows(st, e, sid, b);
  }

  lemma StartsNew(st: State, e: Event, sid: SessionId)
    requires Invariant(st) && Admissible(st, e) && Starts(st, e, sid)
    ensures sid !in st.sessions
    ensures LivesAs(Step(st, e), sid, Mapping(e.bmsg.agentId, {e.browserId}, TimeOf(e), TimeOf(e)))
  {
    assert sid !in st.sessions.Keys;
    StartsFromNothing(st, e, sid);
  }

  lemma RowsStay(st: State, e: Event)
    ensures st.audits <= Step(st, e).audits
  {
  }

  lemma CreatedGrow(rows: seq<AuditRow>, more: seq<AuditRow>, sid: SessionId)
    requires rows <= more && sid in CreatedIds(rows)
    ensures sid in CreatedIds(more)
  {
    var i :| 0 <= i < |rows| && rows[i].SessionCreate? && rows[i].sid == sid;
    assert more[i] == rows[i];
  }

  /** The row of a started session stays in the log, so its id is never given out again. */
  lemma NeverAgain(st: State, e: Event, sid: SessionId)
    requires Invariant(st) && Admissible(st, e) && sid in CreatedIds(st.audits)
    ensures sid in CreatedIds(Step(st, e).audits)
    ensures sid !in st.sessions ==> sid !in Step(st, e).sessions
  {
    RowsStay(st, e);
    CreatedGrow(st.audits, Step(st, e).audits, sid);
    if sid !in st.sessions {
      StartsFromNothing(st, e, sid);
    }
  }

  lemma StartIsLogged(st: State, sid: SessionId)
    requires Invariant(st) && sid in st.sessions
    ensures sid in CreatedIds(st.audits)
  {
    assert sid in st.sessions.Keys;
  }

  lemma LiveStart(st: State, e: Event, after: State, sid: SessionId)
    requires Invariant(st) && Admissible(st, e) && after == Step(st, e) && Starts(st, e, sid)
    ensures LivesAs(after, sid, Mapping(e.bmsg.agentId, {e.browserId}, TimeOf(e), TimeOf(e))) && sid in CreatedIds(after.audits)
  {
    StartsNew(st, e, sid);
    StepKeepsInvariant(st, e);
    StartIsLogged(after, sid);
  }

  lemma LiveStep(st: State, e: Event, after: State, sid: SessionId, m: Mapping, b: BrowserId)
    requires Invariant(st) && Admissible(st, e) && after == Step(st, e) && m.browserIds == {b}
    requires sid in CreatedIds(st.audits) && (sid in st.sessions ==> LivesAs(st, sid, m))
    ensures sid in CreatedIds(after.audits)
    ensures sid in after.sessions <==> sid in st.sessions && !Ends(st, e, m.agentId, b, sid, m.lastActivity)
    ensures sid in after.sessions ==> LivesAs(after, sid, if Uses(e, m.agentId, b, sid) then m.(lastActivity := TimeOf(e)) else m)
  {
    NeverAgain(st, e, sid);
    if sid in st.sessions {
      LivesOn(st, e, sid, m, b);
    }
  }

  lemma StartInRun(states: seq<State>, events: seq<Event>, c: nat, sid: SessionId, a: AgentId, b: BrowserId)
    requires Run(states, events) && StartedAt(states, events, c, sid, a, b)
    ensures LivesAs(states[c + 1], sid, Mapping(a, {b}, TimeOf(events[c]), TimeOf(events[c])))
    ensures sid in CreatedIds(states[c + 1].audits)
  {
    RunKeepsInvariant(states, events, c);
    LiveStart(states[c], events[c], states[c + 1], sid);
  }

  /** One step as the session of agent `a` and browser `b` sees it. */
  ghost predicate StepFact(st: State, e: Event, after: State, sid: SessionId, a: AgentId, b: BrowserId) {
    sid in CreatedIds(st.audits) && (sid in st.sessions ==> st.sessions[sid].agentId == a && st.sessions[sid].browserIds == {b}) ==>
      && sid in CreatedIds(after.audits)
      && (sid in after.sessions <==> sid in st.sessions && !Ends(st, e, a, b, sid, st.sessions[sid].lastActivity))
      && (sid in after.sessions ==>
            after.sessions[sid] == if Uses(e, a, b, sid) then st.sessions[sid].(lastActivity := TimeOf(e)) else st.sessions[sid])
  }

  ghost predicate FactAt(states: seq<State>, events: seq<Event>, i: nat, sid: SessionId, a: AgentId, b: BrowserId)
    requires i < |events| && |states| == |events| + 1
  {
    StepFact(states[i], events[i], states[i + 1], sid, a, b)
  }

  lemma StepIsFact(st: State, e: Event, after: State, sid: SessionId, a: AgentId, b: BrowserId)
    requires Invariant(st) && Admissible(st, e) && after == Step(st, e)
    ensures StepFact(st, e, after, sid, a, b)
  {
    var m := if sid in st.sessions then st.sessions[sid] else Mapping(a, {b}, 0, 0);
    if sid in CreatedIds(st.audits) && m.agentId == a && m.browserIds == {b} {
      LiveStep(st, e, after, sid, m, b);
    }
  }

  lemma FactInRun(states: seq<State>, events: seq<Event>, i: nat, sid: SessionId, a: AgentId, b: BrowserId)
    requires Run(states, events) && i < |events|
    ensures FactAt(states, events, i, sid, a, b)
  {
    RunKeepsInvariant(states, events, i);
    StepIsFact(states[i], events[i], states[i + 1], sid, a, b);
  }

  /** No event between `c` and `n` has ended the session. */
  ghost predicate NotEnded(states: seq<State>, events: seq<Event>, c: nat, n: nat, sid: SessionId, a: AgentId, b: BrowserId) {
    forall k: nat :: c < k < n ==> !EndsAt(states, events, c, k, sid, a, b)
  }

  lemma NotEndedSnoc(states: seq<State>, events: seq<Event>, c: nat, n: nat, sid: SessionId, a: AgentId, b: BrowserId)
    requires c < n
    ensures NotEnded(states, events, c, n + 1, sid, a, b)
       <==> NotEnded(states, events, c, n, sid, a, b) && !EndsAt(states, events, c, n, sid, a, b)
  {
  }

  lemma {:induction false} LiveFrom(states: seq<State>, events: seq<Event>, c: nat, n: nat, sid: SessionId, a: AgentId, b: BrowserId)
    requires |states| == |events| + 1 && c < n <= |events|
    requires forall i: nat :: c < i < |events| ==> FactAt(states, events, i, sid, a, b)
    requires LivesAs(states[c + 1], sid, Mapping(a, {b}, TimeOf(events[c]), TimeOf(events[c])))
    requires sid in CreatedIds(states[c + 1].audits)
    ensures sid in states[n].sessions <==> NotEnded(states, events, c, n, sid, a, b)
    ensures sid in states[n].sessions ==>
              LivesAs(states[n], sid, Mapping(a, {b}, TimeOf(events[c]), LatestUse(events, c, n, a, b, sid)))
    ensures sid in CreatedIds(states[n].audits)
    decreases n
  {
    if n > c + 1 {
      LiveFrom(states, events, c, n - 1, sid, a, b);
      NotEndedSnoc(states, events, c, n - 1, sid, a, b);
      assert FactAt(states, events, n - 1, sid, a, b);
    }
  }

  /** In every run: a session is live exactly while no later event has ended it, which its agent's
      pty.exited or creation failure, its browser's disconnect, its agent's disconnect and a sweep more
      than 24 hours after its latest use do, and nothing else does. While it lives its mapping names the
      agent and the browser that made it, and lastActivity is its latest use. */
  lemma LiveExactly(states: seq<State>, events: seq<Event>, c: nat, n: nat, sid: SessionId, a: AgentId, b: BrowserId)
    requires Run(states, events) && StartedAt(states, events, c, sid, a, b) && c < n <= |events|
    ensures sid in states[n].sessions <==> NotEnded(states, events, c, n, sid, a, b)
    ensures sid in states[n].sessions ==>
              LivesAs(states[n], sid, Mapping(a, {b}, TimeOf(events[c]), LatestUse(events, c, n, a, b, sid)))
  {
    forall i: nat | c < i < |events| ensures FactAt(states, events, i, sid, a, b) {
      FactInRun(states, events, i, sid, a, b);
    }
    StartInRun(states, events, c, sid, a, b);
    LiveFrom(states, events, c, n, sid, a, b);
  }

  /** Event `i`, when the session is there only after it, starts it. */
  ghost predicate BeginsAt(states: seq<State>, events: seq<Event>, i: nat, sid: SessionId)
    requires i < |events| && |states| == |events| + 1
  {
    sid !in states[i].sessions && sid in states[i + 1].sessions ==> Starts(states[i], events[i], sid)
  }

  lemma BeginsInRun(states: seq<State>, events: seq<Event>, i: nat, sid: SessionId)
    requires Run(states, events) && i < |events|
    ensures BeginsAt(states, events, i, sid)
  {
    RunKeepsInvariant(states, events, i);
    if sid !in states[i].sessions {
      StartsFromNothing(states[i], events[i], sid);
    }
  }

  lemma {:induction false} StartedSomewhere(states: seq<State>, events: seq<Event>, n: nat, sid: SessionId)
    returns (c: nat, a: AgentId, b: BrowserId)
    requires |states| == |events| + 1 && n <= |events| && sid !in states[0].sessions && sid in states[n].sessions
    requires forall i: nat :: i < |events| ==> BeginsAt(states, events, i, sid)
    ensures c < n && StartedAt(states, events, c, sid, a, b)
  {
    if sid in states[n - 1].sessions {
      c, a, b := StartedSomewhere(states, events, n - 1, sid);
    } else {
      assert BeginsAt(states, events, n - 1, sid);
      c, a, b := n - 1, events[n - 1].bmsg.agentId, events[n - 1].browserId;
    }
  }

  /** Every live session was made by a granted request. */
  lemma EveryLiveStarted(states: seq<State>, events: seq<Event>, n: nat, sid: SessionId)
    returns (c: nat, a: AgentId, b: BrowserId)
    requires Run(states, events) && n <= |events| && sid in states[n].sessions
    ensures c < n && StartedAt(states, events, c, sid, a, b)
  {
    forall i: nat | i < |events| ensures BeginsAt(states, events, i, sid) {
      BeginsInRun(states, events, i, sid);
    }
    c, a, b := StartedSomewhere(states, events, n, sid);
  }

  /** lastActivity of a live session is the time of the latest of its start, its agent's pty.data and its
      browser's pty.data and file.transfer messages. */
  lemma LastActivityIsLatestUse(states: seq<State>, events: seq<Event>, n: nat, sid: SessionId)
    returns (c: nat, a: AgentId, b: BrowserId)
    requires Run(states, events) && n <= |events| && sid in states[n].sessions
    ensures c < n && StartedAt(states, events, c, sid, a, b)
    ensures states[n].sessions[sid] == Mapping(a, {b}, TimeOf(events[c]), LatestUse(events, c, n, a, b, sid))
  {
    c, a, b := EveryLiveStarted(states, events, n, sid);
    LiveExactly(states, events, c, n, sid, a, b);
  }

  predicate HasTime(e: Event) { e.FromBrowser? || e.FromAgent? || e.SweepStale? }

  ghost predicate TimesGrow(events: seq<Event>, n: nat) {
    forall i, j :: 0 <= i < j <= n && j < |events| && HasTime(events[i]) && HasTime(events[j]) ==> TimeOf(events[i]) <= TimeOf(events[j])
  }

  /** Event `k` is the start of the session, or uses it. */
  predicate IsUse(events: seq<Event>, c: nat, k: nat, a: AgentId, b: BrowserId, sid: SessionId) {
    k < |events| && (k == c || Uses(events[k], a, b, sid))
  }

  lemma {:induction false} LatestUseIsLatest(events: seq<Event>, c: nat, n: nat, a: AgentId, b: BrowserId, sid: SessionId)
    returns (last: nat)
    requires c < n <= |events| && HasTime(events[c]) && TimesGrow(events, n - 1)
    ensures c <= last < n && IsUse(events, c, last, a, b, sid) && TimeOf(events[last]) == LatestUse(events, c, n, a, b, sid)
    ensures forall k: nat :: c <= k < n && IsUse(events, c, k, a, b, sid) ==> TimeOf(events[k]) <= LatestUse(events, c, n, a, b, sid)
    decreases n
  {
    if n == c + 1 || Uses(events[n - 1], a, b, sid) {
      last := n - 1;
    } else {
      last := LatestUseIsLatest(events, c, n - 1, a, b, sid);
    }
  }

  /** With times that do not go back: a sweep ends a session exactly when neither its start nor any use
      of it fell in the last 24 hours. */
  lemma SweepEndsIdleExactly(states: seq<State>, events: seq<Event>, n: nat, sid: SessionId)
    returns (c: nat, a: AgentId, b: BrowserId)
    requires Run(states, events) && n < |events| && events[n].SweepStale? && TimesGrow(events, n) && sid in states[n].sessions
    ensures c < n && StartedAt(states, events, c, sid, a, b)
    ensures sid !in states[n + 1].sessions
       <==> forall k: nat :: c <= k < n && IsUse(events, c, k, a, b, sid) ==> events[n].now - TimeOf(events[k]) > 24 * 60 * 60 * 1000
  {
    c, a, b := LastActivityIsLatestUse(states, events, n, sid);
    RunKeepsInvariant(states, events, n);
    LivesOn(states[n], events[n], sid, states[n].sessions[sid], b);
    var last := LatestUseIsLatest(events, c, n, a, b, sid);
  }

  // ---------------------------------------------------------------- the audit log, and agents told to close

  /** The event closes the session with an audit row. */
  ghost predicate Closes(st: State, e: Event, sid: SessionId)
    requires sid in st.sessions
  {
    || Finishes(e, st.sessions[sid].agentId, sid)
    || (e.BrowserClosed? && e.browserId in st.sessions[sid].browserIds)
    || (e.SweepStale? && e.now - st.sessions[sid].lastActivity > 24 * 60 * 60 * 1000)
  }

  function ReasonFor(e: Event): CloseReason {
    match e
    case FromAgent(_, Exited(_, code), _, _) => ExitCode(code)
    case FromAgent(_, _, _, _) => CreateFailedOnAgent
    case BrowserClosed(_) => BrowserDisconnect
    case _ => TtlExpired
  }

  /** `ids` are the sessions the event closes, each once. */
  ghost predicate ClosedIn(st: State, e: Event, ids: seq<SessionId>) {
    NoDuplicates(ids) && forall s :: s in ids <==> s in st.sessions && Closes(st, e, s)
  }

  /** `ids` come in the order in which their sessions were made. */
  ghost predicate InMapOrder(st: State, ids: seq<SessionId>) {
    forall i, j :: 0 <= i < j < |ids| ==> Before(st.order, ids[i], ids[j])
  }

  ghost predicate Before(order: seq<SessionId>, x: SessionId, y: SessionId) {
    exists p, q :: 0 <= p < q < |order| && order[p] == x && order[q] == y
  }

  lemma PickedInMapOrder(st: State, want: set<SessionId>, ids: seq<SessionId>)
    requires ids == Pick(st.order, want)
    ensures InMapOrder(st, ids)
  {
    forall i, j | 0 <= i < j < |ids| ensures Before(st.order, ids[i], ids[j]) {
      var p, q := PickInOrder(st.order, want, i, j);
    }
  }

  /** One close row for each of `ids`, with the event's reason, and no other row. */
  ghost predicate RowsFor(st: State, e: Event, after: State, ids: seq<SessionId>) {
    && |after.audits| == |st.audits| + |ids| && st.audits <= after.audits
    && forall i :: 0 <= i < |ids| ==> after.audits[|st.audits| + i] == SessionClose(ids[i], ReasonFor(e))
  }

  /** A connected agent with an open socket is told to close its own among `ids`, in their order. */
  ghost predicate ToldToClose(st: State, after: State, ids: seq<SessionId>) {
    forall a :: a in st.agents && a in after.agents ==>
      var mine := Pick(ids, set s | s in st.sessions && st.sessions[s].agentId == a);
      after.agents[a].sent
      == st.agents[a].sent + if st.agents[a].open then seq(|mine|, i requires 0 <= i < |mine| => PtyClose(mine[i], None)) else []
  }

  lemma RemovedObserved(st: State, e: Event, dead: seq<SessionId>, why: CloseReason, notify: bool, after: State)
    requires after == Removed(st, dead, why, notify) && why == ReasonFor(e)
    ensures RowsFor(st, e, after, dead) && (notify ==> ToldToClose(st, after, dead))
  {
  }

  lemma MembersOf(ids: seq<SessionId>, all: set<SessionId>)
    requires SetOf(ids) == all
    ensures forall s :: s in ids <==> s in all
  {
    forall s ensures s in ids <==> s in SetOf(ids) {}
  }

  lemma StaleClosed(st: State, e: Event, ids: seq<SessionId>)
    requires OrderOk(st) && e.SweepStale? && ids == Pick(st.order, Stale(st, e.now))
    ensures ClosedIn(st, e, ids) && InMapOrder(st, ids)
  {
    PickedInMapOrder(st, Stale(st, e.now), ids);
    PickedLive(st, Stale(st, e.now));
    MembersOf(ids, Stale(st, e.now));
  }

  lemma SweepObserved(st: State, e: Event, after: State) returns (ids: seq<SessionId>)
    requires Coherent(st) && e.SweepStale? && after == Step(st, e)
    ensures ClosedIn(st, e, ids) && InMapOrder(st, ids) && RowsFor(st, e, after, ids) && ToldToClose(st, after, ids)
  {
    ids := Pick(st.order, Stale(st, e.now));
    StaleClosed(st, e, ids);
    RemovedObserved(st, e, ids, TtlExpired, true, after);
  }

  lemma OrphansClosed(st: State, e: Event, gone: State) returns (ids: seq<SessionId>)
    requires Coherent(st) && e.BrowserClosed?
    requires gone == WithoutBrowser(st.(browsers := st.browsers - {e.browserId}), e.browserId, st.sessions.Keys)
    ensures ids == Pick(gone.order, Orphans(gone)) && ClosedIn(st, e, ids) && InMapOrder(st, ids)
  {
    ids := Pick(gone.order, Orphans(gone));
    PickedInMapOrder(st, Orphans(gone), ids);
    StruckBrowser(st, e.browserId);
    PickedLive(gone, Orphans(gone));
    MembersOf(ids, Orphans(gone));
  }

  lemma BrowserClosedObserved(st: State, e: Event, after: State) returns (ids: seq<SessionId>)
    requires Coherent(st) && e.BrowserClosed? && after == Step(st, e)
    ensures ClosedIn(st, e, ids) && InMapOrder(st, ids) && RowsFor(st, e, after, ids) && ToldToClose(st, after, ids)
  {
    var gone := WithoutBrowser(st.(browsers := st.browsers - {e.browserId}), e.browserId, st.sessions.Keys);
    ids := OrphansClosed(st, e, gone);
    GoneObserved(st, e, gone, ids, after);
  }

  lemma GoneObserved(st: State, e: Event, gone: State, ids: seq<SessionId>, after: State)
    requires e.BrowserClosed? && after == Removed(gone, ids, BrowserDisconnect, true)
    requires gone == WithoutBrowser(st.(browsers := st.browsers - {e.browserId}), e.browserId, st.sessions.Keys)
    ensures RowsFor(st, e, after, ids) && ToldToClose(st, after, ids)
  {
    RemovedObserved(gone, e, ids, BrowserDisconnect, true, after);
    SameAgents(st, gone, after, ids);
  }

  lemma SameAgents(st: State, gone: State, after: State, ids: seq<SessionId>)
    requires gone.agents == st.agents && gone.sessions.Keys == st.sessions.Keys && ToldToClose(gone, after, ids)
    requires forall s :: s in st.sessions ==> gone.sessions[s].agentId == st.sessions[s].agentId
    ensures ToldToClose(st, after, ids)
  {
    forall a | a in st.agents
      ensures (set s | s in st.sessions && st.sessions[s].agentId == a) == set s | s in gone.sessions && gone.sessions[s].agentId == a
    {
    }
  }

  lemma FinishedRow(st: State, e: Event)
    requires e.FromAgent? && (e.amsg.Exited? || e.amsg.Failed?) && e.amsg.sid in st.sessions && Closes(st, e, e.amsg.sid)
    ensures Step(st, e).audits == st.audits + [SessionClose(e.amsg.sid, ReasonFor(e))]
  {
  }

  lemma NoRow(st: State, e: Event)
    requires e.FromAgent? && !((e.amsg.Exited? || e.amsg.Failed?) && e.amsg.sid in st.sessions && Closes(st, e, e.amsg.sid))
    ensures Step(st, e).audits == st.audits
  {
  }

  lemma AgentNotTold(st: State, e: Event, a: AgentId)
    requires e.FromAgent? && a in st.agents
    ensures a in Step(st, e).agents && Step(st, e).agents[a].sent == st.agents[a].sent
  {
  }

  lemma FinishObserved(st: State, e: Event, after: State) returns (ids: seq<SessionId>)
    requires e.FromAgent? && after == Step(st, e)
    ensures ClosedIn(st, e, ids) && InMapOrder(st, ids) && RowsFor(st, e, after, ids)
    ensures forall a :: a in st.agents && a in after.agents ==> after.agents[a].sent == st.agents[a].sent
  {
    forall a | a in st.agents && a in after.agents ensures after.agents[a].sent == st.agents[a].sent {
      AgentNotTold(st, e, a);
    }
    if (e.amsg.Exited? || e.amsg.Failed?) && e.amsg.sid in st.sessions && Closes(st, e, e.amsg.sid) {
      ids := [e.amsg.sid];
      FinishedRow(st, e);
    } else {
      ids := [];
      NoRow(st, e);
    }
  }

  /** Each cleanup writes one close row, with its reason, for every session it ends, and tells the agents
      of those sessions, each about its own and in the same order; a shell that ended or could not be
      started gives one row, and its agent is told nothing; no other event closes anything. */
  lemma ClosesExactly(st: State, e: Event) returns (ids: seq<SessionId>)
    requires Coherent(st) && (e.AgentHello? ==> e.hello.Hello?) && !(e.FromBrowser? && e.bmsg.Create?)
    ensures ClosedIn(st, e, ids) && InMapOrder(st, ids) && RowsFor(st, e, Step(st, e), ids)
    ensures e.SweepStale? || e.BrowserClosed? ==> ToldToClose(st, Step(st, e), ids)
    ensures e.FromAgent? ==> forall a :: a in st.agents && a in Step(st, e).agents ==> Step(st, e).agents[a].sent == st.agents[a].sent
  {
    match e {
      case SweepStale(_) => ids := SweepObserved(st, e, Step(st, e));
      case BrowserClosed(_) => ids := BrowserClosedObserved(st, e, Step(st, e));
      case FromAgent(_, _, _, _) => ids := FinishObserved(st, e, Step(st, e));
      case _ => ids := [];
    }
  }

  // ---------------------------------------------------------------- what a browser hears

  predicate Mine(st: State, a: AgentId, sid: SessionId, b: BrowserId) {
    sid in st.sessions && st.sessions[sid].agentId == a && b in st.sessions[sid].browserIds
  }

  /** An agent's message as browser `b` hears it: nothing unless the session is the agent's and the
      browser's own; only pty.created is written whatever the socket's state. */
  function HeardFromAgent(st: State, a: AgentId, m: AgentMessage, b: BrowserId): seq<ToBrowser>
    requires b in st.browsers && !m.Hello? && !m.Heartbeat?
  {
    if !Mine(st, a, m.sid, b) then []
    else if m.Created? then [PtyCreated(a, m.sid, m.publicKey, m.signature, IdField(m.clientReqId))]
    else if !st.browsers[b].open then []
    else
      match m
      case Data(sid, payload) => [PtyData(a, sid, payload)]
      case Exited(sid, code) => [PtyExited(a, sid, code)]
      case Replay(sid, payload) => [PtyReplay(a, sid, payload)]
      case Failed(sid, error, id) =>
        if id.Some? && |id.value| > 0 then [PtyCreateError(a, error, id)] else [PtyError(a, sid, error)]
      case Transfer(note, sid, tid, payload) => [FileTransfer(note, a, sid, tid, payload)]
  }

  predicate Owner(st: State, b: BrowserId, owner: Option<int>)
    requires b in st.browsers
  {
    st.browsers[b].open && owner.Some? && owner.value == st.browsers[b].userId
  }

  function Heard(st: State, e: Event, b: BrowserId): seq<ToBrowser>
    requires b in st.browsers
  {
    match e
    case AgentHello(a, _, Hello(name, os, identityKey), owner) => if Owner(st, b, owner) then [AgentOnline(a, name, os, identityKey)] else []
    case AgentClosed(a, ws, owner) => if Disconnects(st, e, a) && Owner(st, b, owner) then [AgentOffline(a)] else []
    case FromAgent(a, Heartbeat, _, _) => []
    case FromAgent(a, Hello(name, os, identityKey), _, owner) =>
      if a in st.agents && Owner(st, b, owner) then [AgentOnline(a, name, os, identityKey)] else []
    case FromAgent(a, m, _, _) => HeardFromAgent(st, a, m, b)
    case _ => []
  }

  lemma HeardIsReport(st: State, a: AgentId, m: AgentMessage, b: BrowserId)
    requires b in st.browsers && !m.Hello? && !m.Heartbeat?
    ensures HeardFromAgent(st, a, m, b) == if Hears(st, a, m, b) then [Report(a, m)] else []
  {
  }

  lemma HearsFromAgent(st: State, e: Event, b: BrowserId)
    requires Coherent(st) && e.FromAgent? && b in st.browsers
    ensures b in Step(st, e).browsers && Step(st, e).browsers[b].sent == st.browsers[b].sent + Heard(st, e, b)
  {
    if !e.amsg.Hello? && !e.amsg.Heartbeat? {
      HearsExactly(st, e.agentId, e.amsg, e.now, e.owner, b);
      HeardIsReport(st, e.agentId, e.amsg, b);
    }
  }

  lemma HearsAgentsComeAndGo(st: State, e: Event, b: BrowserId)
    requires Admissible(st, e) && b in st.browsers && (e.AgentHello? || e.AgentClosed?)
    ensures b in Step(st, e).browsers && Step(st, e).browsers[b].sent == st.browsers[b].sent + Heard(st, e, b)
  {
  }

  lemma HearsNothing(st: State, e: Event, b: BrowserId)
    requires Admissible(st, e) && b in st.browsers && !(e.FromBrowser? && e.bmsg.Create?)
    requires !e.AgentHello? && !e.AgentClosed? && !e.FromAgent?
    ensures b in Step(st, e).browsers ==> Step(st, e).browsers[b].sent == st.browsers[b].sent
  {
  }

  /** Every connected browser is written exactly what `Heard` says: who comes and goes among the agents
      of its user, and what its own sessions' agents report, field by field. A refused pty.create is
      answered as CreateExactly says. */
  lemma BrowserHears(st: State, e: Event, b: BrowserId)
    requires Coherent(st) && Admissible(st, e) && b in st.browsers && !(e.FromBrowser? && e.bmsg.Create?)
    ensures b in Step(st, e).browsers ==> Step(st, e).browsers[b].sent == st.browsers[b].sent + Heard(st, e, b)
  {
    if e.FromAgent? {
      HearsFromAgent(st, e, b);
    } else if e.AgentHello? || e.AgentClosed? {
      HearsAgentsComeAndGo(st, e, b);
    } else {
      HearsNothing(st, e, b);
    }
  }

  // ---------------------------------------------------------------- what an agent is told

  function Bounded(n: int): int {
    if n > 500 then 500 else if n >= 1 then n else 1
  }

  /** A browser's message as agent `a` is told it: nothing unless it is the one named, runs the session,
      and the session is the browser's own. */
  function Told(st: State, m: BrowserMessage, a: AgentId, b: BrowserId): seq<ToAgent>
    requires !m.Create? && a in st.agents
  {
    if m.agentId != a || !st.agents[a].open || !Mine(st, a, m.sid, b) then []
    else
      match m
      case Input(_, sid, payload) => [PtyInput(sid, payload)]
      case Resize(_, sid, cols, rows, hmac) => [PtyResize(sid, Bounded(cols), Bounded(rows), hmac)]
      case Close(_, sid, hmac) => [PtyClose(sid, hmac)]
      case ReplayRequest(_, sid) => [PtyReplayRequest(sid)]
      case Upload(_, sid, part, tid, payload) => [FileUpload(sid, part, tid, payload)]
  }

  /** Every connected agent is written exactly what `Told` says of a browser's message. */
  lemma AgentIsTold(st: State, b: BrowserId, m: BrowserMessage, env: Env, a: AgentId)
    requires !m.Create? && a in st.agents
    ensures var after := Step(st, FromBrowser(b, m, env));
            a in after.agents && after.agents[a].sent == st.agents[a].sent + Told(st, m, a, b)
  {
  }

  // ---------------------------------------------------------------- who is connected

  /** The browser connections after the event. */
  ghost predicate BrowsersAfter(st: State, e: Event, after: State) {
    && (forall b :: b in after.browsers <==>
          || (b in st.browsers && !(e.BrowserClosed? && e.browserId == b))
          || (e.BrowserConnect? && e.browserId == b && |st.browsers| < 100))
    && (forall b :: b in after.browsers && b in st.browsers ==>
          && after.browsers[b].userId == st.browsers[b].userId && after.browsers[b].username == st.browsers[b].username
          && (after.browsers[b].open <==> st.browsers[b].open && !(e.BrowserClosing? && e.browserId == b)))
    && (forall b :: b in after.browsers && b !in st.browsers ==>
          e.BrowserConnect? && after.browsers[b] == BrowserConn(e.userId, e.username, true, {}, []))
  }

  /** The agent connections after the event. */
  ghost predicate AgentsAfter(st: State, e: Event, after: State) {
    && (forall a :: a in after.agents <==> (a in st.agents && !Disconnects(st, e, a)) || (e.AgentHello? && e.agentId == a))
    && (forall a :: a in after.agents && e.AgentHello? && e.agentId == a ==> after.agents[a] == AgentConn(e.ws, true, {}, []))
    && (forall a :: a in after.agents && !(e.AgentHello? && e.agentId == a) ==>
          && a in st.agents && after.agents[a].ws == st.agents[a].ws
          && (after.agents[a].open <==> st.agents[a].open && !(e.AgentClosing? && e.agentId == a)))
  }

  /** The event opens and closes no connection. */
  ghost predicate SameConnections(st: State, after: State) {
    SameBrowserConnections(st, after) && SameAgentConnections(st, after)
  }

  ghost predicate SameBrowserConnections(st: State, after: State) {
    && after.browsers.Keys == st.browsers.Keys
    && forall b :: b in st.browsers ==> SameUser(after.browsers[b], st.browsers[b])
  }

  ghost predicate SameAgentConnections(st: State, after: State) {
    && after.agents.Keys == st.agents.Keys
    && forall a :: a in st.agents ==> after.agents[a].ws == st.agents[a].ws && after.agents[a].open == st.agents[a].open
  }

  predicate SameUser(x: BrowserConn, y: BrowserConn) {
    x.userId == y.userId && x.username == y.username && x.open == y.open
  }

  lemma EndingKeepsBrowser(st: State, e: Event, b: BrowserId)
    requires e.FromAgent? && b in st.browsers && (e.amsg.Exited? || e.amsg.Failed?)
    ensures b in Step(st, e).browsers && SameUser(Step(st, e).browsers[b], st.browsers[b])
  {
  }

  lemma AgentMessageKeepsBrowser(st: State, e: Event, b: BrowserId)
    requires e.FromAgent? && b in st.browsers
    ensures b in Step(st, e).browsers && SameUser(Step(st, e).browsers[b], st.browsers[b])
  {
    if e.amsg.Exited? || e.amsg.Failed? {
      EndingKeepsBrowser(st, e, b);
    }
  }

  lemma AgentMessageKeepsAgent(st: State, e: Event, a: AgentId)
    requires e.FromAgent? && a in st.agents
    ensures a in Step(st, e).agents
    ensures Step(st, e).agents[a].ws == st.agents[a].ws && Step(st, e).agents[a].open == st.agents[a].open
  {
  }

  lemma AgentMessageConnectsNobody(st: State, e: Event, after: State)
    requires e.FromAgent? && after == Step(st, e)
    ensures SameConnections(st, after)
  {
    SameKeys(st, e);
    forall b | b in st.browsers ensures SameUser(after.browsers[b], st.browsers[b]) {
      AgentMessageKeepsBrowser(st, e, b);
    }
    forall a | a in st.agents ensures after.agents[a].ws == st.agents[a].ws && after.agents[a].open == st.agents[a].open {
      AgentMessageKeepsAgent(st, e, a);
    }
  }

  lemma SameKeys(st: State, e: Event)
    requires e.FromAgent?
    ensures Step(st, e).browsers.Keys == st.browsers.Keys && Step(st, e).agents.Keys == st.agents.Keys
  {
    SameBrowsers(st, e.agentId, e.amsg, e.now, e.owner);
  }

  lemma CreateConnectsNobody(st: State, e: Event)
    requires e.FromBrowser? && e.bmsg.Create?
    ensures SameConnections(st, Step(st, e))
  {
  }

  lemma BrowserMessageConnectsNobody(st: State, e: Event)
    requires e.FromBrowser? && !e.bmsg.Create?
    ensures SameConnections(st, Step(st, e))
  {
  }

  lemma SweepConnectsNobody(st: State, e: Event)
    requires e.SweepStale?
    ensures SameConnections(st, Step(st, e))
  {
  }

  lemma MessagesConnectNobody(st: State, e: Event)
    requires e.FromAgent? || e.FromBrowser? || e.SweepStale?
    ensures SameConnections(st, Step(st, e))
  {
    if e.FromAgent? {
      AgentMessageConnectsNobody(st, e, Step(st, e));
    } else if e.SweepStale? {
      SweepConnectsNobody(st, e);
    } else if e.bmsg.Create? {
      CreateConnectsNobody(st, e);
    } else {
      BrowserMessageConnectsNobody(st, e);
    }
  }

  lemma SameAfter(st: State, e: Event, after: State)
    requires (e.FromAgent? || e.FromBrowser? || e.SweepStale?) && SameConnections(st, after)
    ensures BrowsersAfter(st, e, after) && AgentsAfter(st, e, after)
  {
  }

  lemma BrowserClosedConnections(st: State, e: Event)
    requires e.BrowserClosed?
    ensures BrowsersAfter(st, e, Step(st, e)) && AgentsAfter(st, e, Step(st, e))
  {
  }

  lemma AgentClosedConnections(st: State, e: Event)
    requires e.AgentClosed?
    ensures BrowsersAfter(st, e, Step(st, e)) && AgentsAfter(st, e, Step(st, e))
  {
  }

  lemma OpenedConnections(st: State, e: Event)
    requires Admissible(st, e) && (e.BrowserConnect? || e.BrowserClosing? || e.AgentHello? || e.AgentClosing?)
    ensures BrowsersAfter(st, e, Step(st, e)) && AgentsAfter(st, e, Step(st, e))
  {
  }

  /** A browser is connected from its connection, if fewer than 100 are, to its close, an agent from its
      hello, which replaces an earlier connection, to the close of that same socket. */
  lemma ConnectionsExactly(st: State, e: Event)
    requires Admissible(st, e)
    ensures BrowsersAfter(st, e, Step(st, e)) && AgentsAfter(st, e, Step(st, e))
  {
    if e.FromAgent? || e.FromBrowser? || e.SweepStale? {
      MessagesConnectNobody(st, e);
      SameAfter(st, e, Step(st, e));
    } else if e.BrowserClosed? {
      BrowserClosedConnections(st, e);
    } else if e.AgentClosed? {
      AgentClosedConnections(st, e);
    } else {
      OpenedConnections(st, e);
    }
  }

  /** The set kept with an agent's connection: its sessions of this connection that are still live. */
  ghost predicate AgentSetAfter(st: State, e: Event, after: State, a: AgentId, sid: SessionId)
    requires a in st.agents && a in after.agents
  {
    sid in after.agents[a].sessions
    <==> (sid in st.agents[a].sessions && sid in after.sessions) || (Starts(st, e, sid) && e.bmsg.agentId == a)
  }

  /** Removing sessions of which all in the set that go are the agent's own. */
  lemma SetAfterRemoval(st: State, e: Event, dead: seq<SessionId>, why: CloseReason, notify: bool, a: AgentId, sid: SessionId)
    requires AgentSetsOk(st) && a in st.agents && !e.FromBrowser?
    ensures AgentSetAfter(st, e, Removed(st, dead, why, notify), a, sid)
  {
    assert st.agents[a].sessions <= SessionsOf(st, a);
  }

  lemma SetAfterAgentMessage(st: State, e: Event, a: AgentId, sid: SessionId)
    requires AgentSetsOk(st) && a in st.agents && e.FromAgent?
    ensures a in Step(st, e).agents && AgentSetAfter(st, e, Step(st, e), a, sid)
  {
    assert st.agents[a].sessions <= SessionsOf(st, a);
    var m := e.amsg;
    if !m.Hello? && !m.Heartbeat? {
      assert SetOf([m.sid]) == {m.sid};
    }
  }

  lemma SetAfterBrowserClosed(st: State, e: Event, a: AgentId, sid: SessionId)
    requires AgentSetsOk(st) && a in st.agents && e.BrowserClosed?
    ensures a in Step(st, e).agents && AgentSetAfter(st, e, Step(st, e), a, sid)
  {
    var gone := WithoutBrowser(st.(browsers := st.browsers - {e.browserId}), e.browserId, st.sessions.Keys);
    forall x ensures SessionsOf(gone, x) == SessionsOf(st, x) {}
    SetAfterRemoval(gone, e, Pick(gone.order, Orphans(gone)), BrowserDisconnect, true, a, sid);
  }

  lemma SetAfterBrowserMessage(st: State, e: Event, a: AgentId, sid: SessionId)
    requires AgentSetsOk(st) && a in st.agents && e.FromBrowser? && (e.bmsg.Create? ==> e.env.newSid !in st.sessions)
    ensures a in Step(st, e).agents && AgentSetAfter(st, e, Step(st, e), a, sid)
  {
    assert st.agents[a].sessions <= SessionsOf(st, a);
    if e.bmsg.Create? {
      GrantedExactly(st, e.browserId, e.bmsg, e.env);
    }
  }

  lemma SetAfterOther(st: State, e: Event, a: AgentId, sid: SessionId)
    requires AgentSetsOk(st) && a in st.agents && a in Step(st, e).agents && !(e.AgentHello? && e.agentId == a)
    requires e.BrowserConnect? || e.BrowserClosing? || e.AgentClosing? || (e.AgentHello? && e.hello.Hello?) || e.AgentClosed?
    ensures AgentSetAfter(st, e, Step(st, e), a, sid)
  {
    assert st.agents[a].sessions <= SessionsOf(st, a);
  }

  /** That holds for every agent that stays connected on the same socket. */
  lemma AgentSetFollows(st: State, e: Event, a: AgentId, sid: SessionId)
    requires Invariant(st) && Admissible(st, e) && a in st.agents && a in Step(st, e).agents && !(e.AgentHello? && e.agentId == a)
    ensures AgentSetAfter(st, e, Step(st, e), a, sid)
  {
    match e {
      case FromAgent(_, _, _, _) => SetAfterAgentMessage(st, e, a, sid);
      case FromBrowser(_, m, env) =>
        assert m.Create? ==> env.newSid !in st.sessions.Keys;
        SetAfterBrowserMessage(st, e, a, sid);
      case BrowserClosed(_) => SetAfterBrowserClosed(st, e, a, sid);
      case SweepStale(now) => SetAfterRemoval(st, e, Pick(st.order, Stale(st, now)), TtlExpired, true, a, sid);
      case _ => SetAfterOther(st, e, a, sid);
    }
  }

}
