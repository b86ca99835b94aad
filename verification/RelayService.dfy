/** The relay's event handlers, in the form the program gives them: maps reassigned entry by entry,
    loops over all browsers or all sessions that delete as they go. Every handler is proved to have
    the effect RelayModel states. */
module RelayService {
  import opened Prelude
  import opened RelayModel
  import opened RelayProofs

  // ---------------------------------------------------------------- removing one more session

  lemma MessagesTwice(sent: seq<ToAgent>, dead: seq<SessionId>, sid: SessionId, mine: set<SessionId>)
    requires sid !in dead
    ensures sent + CloseMessages(Pick(dead, mine)) + CloseMessages(Pick([sid], mine - SetOf(dead)))
         == sent + CloseMessages(Pick(dead + [sid], mine))
  {
    PickSnoc(dead, sid, mine);
    PickSnoc([], sid, mine - SetOf(dead));
    assert [] + [sid] == [sid];
    var p := Pick(dead, mine);
    if sid in mine {
      assert CloseMessages(p + [sid]) == CloseMessages(p) + CloseMessages([sid]);
      assert sent + CloseMessages(p + [sid]) == (sent + CloseMessages(p)) + CloseMessages([sid]);
    } else {
      assert CloseMessages([]) == [];
      assert sent + CloseMessages(p) + CloseMessages([]) == sent + CloseMessages(p);
    }
  }

  lemma SessionsTwice(sessions: set<SessionId>, dead: seq<SessionId>, sid: SessionId, mine: set<SessionId>)
    ensures sessions - SetOf(dead) * mine - SetOf([sid]) * (mine - SetOf(dead)) == sessions - SetOf(dead + [sid]) * mine
  {
    assert SetOf(dead + [sid]) == SetOf(dead) + {sid};
    assert SetOf([sid]) == {sid};
  }

  lemma ReleasedTwice(conn: AgentConn, dead: seq<SessionId>, sid: SessionId, mine: set<SessionId>, notify: bool)
    requires sid !in dead
    ensures Released(Released(conn, dead, mine, notify), [sid], mine - SetOf(dead), notify)
         == Released(conn, dead + [sid], mine, notify)
  {
    MessagesTwice(conn.sent, dead, sid, mine);
    SessionsTwice(conn.sessions, dead, sid, mine);
  }

  lemma UnsubscribedTwice(browsers: map<BrowserId, BrowserConn>, a: set<SessionId>, b: set<SessionId>)
    ensures Unsubscribe(Unsubscribe(browsers, a), b) == Unsubscribe(browsers, a + b)
  {
    var two, both := Unsubscribe(Unsubscribe(browsers, a), b), Unsubscribe(browsers, a + b);
    forall x | x in browsers ensures two[x] == both[x] {
      assert browsers[x].subscribed - a - b == browsers[x].subscribed - (a + b);
    }
  }

  lemma AgentsReleasedTwice(st: State, dead: seq<SessionId>, sid: SessionId, why: CloseReason, notify: bool)
    requires sid !in dead
    ensures Removed(Removed(st, dead, why, notify), [sid], why, notify).agents == Removed(st, dead + [sid], why, notify).agents
  {
    var one := Removed(st, dead, why, notify);
    var two, both := Removed(one, [sid], why, notify).agents, Removed(st, dead + [sid], why, notify).agents;
    forall a | a in st.agents ensures two[a] == both[a] {
      assert SessionsOf(one, a) == SessionsOf(st, a) - SetOf(dead);
      ReleasedTwice(st.agents[a], dead, sid, SessionsOf(st, a), notify);
    }
    assert two.Keys == both.Keys;
  }

  lemma OrderPickedTwice(st: State, dead: set<SessionId>, sid: SessionId)
    ensures Pick(Pick(st.order, st.sessions.Keys - dead), (st.sessions - dead).Keys - {sid})
         == Pick(st.order, st.sessions.Keys - (dead + {sid}))
    ensures st.sessions - dead - {sid} == st.sessions - (dead + {sid})
  {
    PickPick(st.order, st.sessions.Keys - dead, (st.sessions - dead).Keys - {sid});
    assert (st.sessions.Keys - dead) * ((st.sessions - dead).Keys - {sid}) == st.sessions.Keys - (dead + {sid});
  }

  lemma RemovedTwice(st: State, dead: seq<SessionId>, sid: SessionId, why: CloseReason, notify: bool)
    requires sid !in dead
    ensures Removed(Removed(st, dead, why, notify), [sid], why, notify) == Removed(st, dead + [sid], why, notify)
  {
    assert SetOf(dead + [sid]) == SetOf(dead) + {sid} && SetOf([sid]) == {sid};
    OrderPickedTwice(st, SetOf(dead), sid);
    UnsubscribedTwice(st.browsers, SetOf(dead), {sid});
    AgentsReleasedTwice(st, dead, sid, why, notify);
    assert CloseRows(dead + [sid], why) == CloseRows(dead, why) + CloseRows([sid], why);
    assert st.audits + CloseRows(dead, why) + CloseRows([sid], why) == st.audits + CloseRows(dead + [sid], why);
  }

  lemma ReleasedNothing(conn: AgentConn, mine: set<SessionId>, notify: bool)
    ensures Released(conn, [], mine, notify) == conn
  {
    assert SetOf<SessionId>([]) == {} && {} * mine == {};
    assert conn.sessions - {} == conn.sessions;
    assert CloseMessages([]) == [] && conn.sent + [] == conn.sent;
  }

  lemma NextPicked(ids: seq<SessionId>, i: nat, chosen: set<SessionId>)
    requires NoDuplicates(ids) && i < |ids|
    ensures ids[i] in SetOf(ids) && ids[i] !in Pick(ids[..i], chosen)
    ensures Pick(ids[..i + 1], chosen) == if ids[i] in chosen then Pick(ids[..i], chosen) + [ids[i]] else Pick(ids[..i], chosen)
  {
    var dead := Pick(ids[..i], chosen);
    PickMembers(ids[..i], chosen);
    assert ids[i] !in SetOf(dead);
    PickSnoc(ids[..i], ids[i], chosen);
    assert ids[..i + 1] == ids[..i] + [ids[i]];
  }

  lemma UnsubscribedNothing(browsers: map<BrowserId, BrowserConn>)
    ensures Unsubscribe(browsers, {}) == browsers
  {
    forall b | b in browsers ensures Unsubscribe(browsers, {})[b] == browsers[b] {
      assert browsers[b].subscribed - {} == browsers[b].subscribed;
    }
  }

  lemma RemovedNothing(st: State, why: CloseReason, notify: bool)
    requires OrderOk(st)
    ensures Removed(st, [], why, notify) == st
  {
    var none := Removed(st, [], why, notify);
    PickAll(st.order, st.sessions.Keys);
    assert SetOf<SessionId>([]) == {};
    assert none.sessions == st.sessions;
    UnsubscribedNothing(st.browsers);
    forall a | a in st.agents ensures none.agents[a] == st.agents[a] {
      ReleasedNothing(st.agents[a], SessionsOf(st, a), notify);
    }
    assert none.agents == st.agents;
    assert CloseRows([], why) == [];
  }

  lemma ReleasedOne(conn: AgentConn, sid: SessionId, mine: set<SessionId>, notify: bool)
    ensures Released(conn, [sid], mine, notify) ==
            if sid !in mine then conn
            else AgentConn(conn.ws, conn.open, conn.sessions - {sid},
                           if notify && conn.open then conn.sent + [PtyClose(sid, None)] else conn.sent)
  {
    PickSnoc([], sid, mine);
    assert [] + [sid] == [sid] && SetOf([sid]) == {sid};
    assert CloseMessages([sid]) == [PtyClose(sid, None)];
    assert CloseMessages([]) == [] && conn.sent + [] == conn.sent;
    if sid !in mine {
      assert conn.sessions - {sid} * mine == conn.sessions;
    } else {
      assert {sid} * mine == {sid};
    }
  }

  /** What the agent side of destroySession does to the `agents` map. */
  function AgentsWithout(agents: map<AgentId, AgentConn>, a: AgentId, sid: SessionId, notify: bool): map<AgentId, AgentConn> {
    var told := if notify then SendToAgent(agents, a, PtyClose(sid, None)) else agents;
    if a in told then told[a := told[a].(sessions := told[a].sessions - {sid})] else told
  }

  lemma RemovedOne(st: State, sid: SessionId, why: CloseReason, notify: bool)
    requires sid in st.sessions
    ensures Removed(st, [sid], why, notify)
         == State(Pick(st.order, st.sessions.Keys - {sid}), st.sessions - {sid}, Unsubscribe(st.browsers, {sid}),
                  AgentsWithout(st.agents, st.sessions[sid].agentId, sid, notify), st.audits + [SessionClose(sid, why)])
  {
    assert SetOf([sid]) == {sid} && CloseRows([sid], why) == [SessionClose(sid, why)];
    var after := AgentsWithout(st.agents, st.sessions[sid].agentId, sid, notify);
    assert after.Keys == st.agents.Keys;
    forall a | a in st.agents ensures after[a] == Released(st.agents[a], [sid], SessionsOf(st, a), notify) {
      ReleasedOne(st.agents[a], sid, SessionsOf(st, a), notify);
    }
    assert after == Removed(st, [sid], why, notify).agents;
  }

  lemma {:induction false} PickAll<T>(xs: seq<T>, want: set<T>)
    requires SetOf(xs) <= want
    ensures Pick(xs, want) == xs
  {
    if xs != [] {
      var init := xs[..|xs| - 1];
      forall x | x in SetOf(init) ensures x in want { assert x in SetOf(xs); }
      PickAll(init, want);
      assert xs[|xs| - 1] in SetOf(xs);
      assert init + [xs[|xs| - 1]] == xs;
    }
  }

  // ---------------------------------------------------------------- one more step of the other loops

  /** The sessions that lose their last browser when `b` is struck. */
  function Struck(base: State, b: BrowserId): set<SessionId> {
    set s | s in base.sessions && base.sessions[s].browserIds - {b} == {}
  }

  lemma StruckOneMore(base: State, b: BrowserId, done: set<SessionId>, sid: SessionId, dead: seq<SessionId>)
    requires sid in base.sessions && sid !in done && sid !in dead
    ensures var at := Removed(WithoutBrowser(base, b, done), dead, BrowserDisconnect, true);
            sid in at.sessions
            && at.(sessions := at.sessions[sid := at.sessions[sid].(browserIds := at.sessions[sid].browserIds - {b})])
            == Removed(WithoutBrowser(base, b, done + {sid}), dead, BrowserDisconnect, true)
  {
    var one, two := WithoutBrowser(base, b, done), WithoutBrowser(base, b, done + {sid});
    assert one.sessions.Keys == two.sessions.Keys;
    var at, next := Removed(one, dead, BrowserDisconnect, true), Removed(two, dead, BrowserDisconnect, true);
    assert next.sessions == at.sessions[sid := at.sessions[sid].(browserIds := at.sessions[sid].browserIds - {b})];
    forall a | a in base.agents ensures at.agents[a] == next.agents[a] {
      assert SessionsOf(one, a) == SessionsOf(two, a);
    }
    assert at.agents == next.agents;
  }

  /** The next key a loop over the Map meets is live and has not been met before. */
  lemma NextKey(st: State, i: nat)
    requires OrderOk(st) && i < |st.order|
    ensures st.order[i] in st.sessions && st.order[i] !in st.order[..i]
    ensures st.order[..i + 1] == st.order[..i] + [st.order[i]]
  {
    assert st.order[i] in SetOf(st.order);
  }

  lemma NoneForgotten(st: State, mine: set<SessionId>)
    requires OrderOk(st)
    ensures Forgotten(st, SetOf(st.order[..0]) * mine) == st
  {
    ForgottenNothing(st);
    assert SetOf(st.order[..0]) * mine == {};
  }

  lemma AllForgotten(st: State, mine: set<SessionId>)
    requires OrderOk(st) && mine <= st.sessions.Keys
    ensures Forgotten(st, SetOf(st.order[..|st.order|]) * mine) == Forgotten(st, mine)
  {
    assert st.order[..|st.order|] == st.order;
    assert SetOf(st.order) * mine == mine;
  }

  lemma NoneStruck(base: State, b: BrowserId)
    requires OrderOk(base)
    ensures Removed(WithoutBrowser(base, b, SetOf(base.order[..0])), Pick(base.order[..0], Struck(base, b)), BrowserDisconnect, true)
         == base
  {
    assert SetOf(base.order[..0]) == {};
    assert WithoutBrowser(base, b, {}).sessions == base.sessions;
    RemovedNothing(base, BrowserDisconnect, true);
  }

  lemma AllStruck(st: State, b: BrowserId)
    requires OrderOk(st)
    ensures var base, n := st.(browsers := st.browsers - {b}), |st.order|;
            && Removed(WithoutBrowser(base, b, SetOf(st.order[..n])), Pick(st.order[..n], Struck(base, b)), BrowserDisconnect, true)
            == OnBrowserClosed(st, b)
  {
    assert st.order[..|st.order|] == st.order;
    var base := st.(browsers := st.browsers - {b});
    assert Struck(base, b) == Orphans(WithoutBrowser(base, b, base.sessions.Keys));
  }

  lemma ForgottenOneMore(st: State, dead: set<SessionId>, sid: SessionId)
    ensures Forgotten(Forgotten(st, dead), {sid}) == Forgotten(st, dead + {sid})
  {
    var one := Forgotten(st, dead);
    var two, both := Forgotten(one, {sid}), Forgotten(st, dead + {sid});
    PickPick(st.order, st.sessions.Keys - dead, one.sessions.Keys - {sid});
    assert (st.sessions.Keys - dead) * (one.sessions.Keys - {sid}) == st.sessions.Keys - (dead + {sid});
    assert two.sessions == both.sessions;
    forall b | b in st.browsers ensures two.browsers[b] == both.browsers[b] {
      assert st.browsers[b].subscribed - dead - {sid} == st.browsers[b].subscribed - (dead + {sid});
    }
    assert two.browsers == both.browsers;
  }

  lemma ForgottenNothing(st: State)
    requires OrderOk(st)
    ensures Forgotten(st, {}) == st
  {
    var none := Forgotten(st, {});
    PickAll(st.order, st.sessions.Keys);
    assert none.sessions == st.sessions;
    forall b | b in st.browsers ensures none.browsers[b] == st.browsers[b] {
      assert st.browsers[b].subscribed - {} == st.browsers[b].subscribed;
    }
    assert none.browsers == st.browsers;
  }

  lemma CountOneMore<T>(all: set<T>, todo: set<T>, x: T)
    requires x in todo
    ensures |all - (todo - {x})| == |all - todo| + if x in all then 1 else 0
  {
    if x in all {
      assert all - (todo - {x}) == (all - todo) + {x};
    } else {
      assert all - (todo - {x}) == all - todo;
    }
  }

  /** `n` members of `all` have been passed; those in `todo` are still to come. */
  ghost predicate Passed<T>(n: nat, all: set<T>, todo: set<T>) {
    n == |all - todo|
  }

  lemma NonePassed<T>(all: set<T>, todo: set<T>)
    requires all <= todo
    ensures Passed(0, all, todo)
  {
    assert all - todo == {};
  }

  lemma PassOne<T>(n: nat, all: set<T>, todo: set<T>, x: T)
    requires Passed(n, all, todo) && x in todo
    ensures Passed(if x in all then n + 1 else n, all, todo - {x})
  {
    CountOneMore(all, todo, x);
  }

  lemma AllPassed<T>(n: nat, all: set<T>)
    requires Passed(n, all, {})
    ensures n == |all|
  {
    assert all - {} == all;
  }

  class Relay {
    var order: seq<SessionId>
    var sessions: map<SessionId, Mapping>
    var browsers: map<BrowserId, BrowserConn>
    var agents: map<AgentId, AgentConn>
    var audits: seq<AuditRow>

    function Snapshot(): State
      reads this
    {
      State(order, sessions, browsers, agents, audits)
    }

    ghost predicate Valid()
      reads this
    {
      OrderOk(Snapshot())
    }

    constructor ()
      ensures Valid() && Snapshot() == Initial && Invariant(Snapshot())
    {
      order, sessions, browsers, agents, audits := [], map[], map[], map[], [];
      EmptyRelay();
    }

    // -------------------------------------------------------------- sockets

    method SendToBrowser(b: BrowserId, msg: ToBrowser)
      modifies this`browsers
      ensures browsers == Deliver(old(browsers), OpenOnly(old(browsers), {b}), msg)
    {
      if b in browsers && browsers[b].open {
        browsers := browsers[b := browsers[b].(sent := browsers[b].sent + [msg])];
      }
    }

    method SendTo(a: AgentId, msg: ToAgent)
      modifies this`agents
      ensures agents == SendToAgent(old(agents), a, msg)
    {
      if a in agents && agents[a].open {
        agents := agents[a := agents[a].(sent := agents[a].sent + [msg])];
      }
    }

    method SendToSessionSubscribers(sid: SessionId, msg: ToBrowser)
      modifies this`browsers
      ensures browsers == Deliver(old(browsers), Subscribers(old(browsers), sid), msg)
    {
      var todo := browsers.Keys;
      while todo != {}
        invariant todo <= old(browsers).Keys && browsers.Keys == old(browsers).Keys
        invariant forall b :: b in todo ==> browsers[b] == old(browsers)[b]
        invariant forall b :: b in old(browsers) && b !in todo ==>
                    browsers[b] == Deliver(old(browsers), Subscribers(old(browsers), sid), msg)[b]
        decreases |todo|
      {
        var b :| b in todo;
        todo := todo - {b};
        if sid in browsers[b].subscribed && browsers[b].open {
          browsers := browsers[b := browsers[b].(sent := browsers[b].sent + [msg])];
        }
      }
    }

    method BroadcastToUserBrowsers(owner: int, msg: ToBrowser)
      modifies this`browsers
      ensures browsers == Deliver(old(browsers), OwnedBy(old(browsers), Some(owner)), msg)
    {
      var todo := browsers.Keys;
      while todo != {}
        invariant todo <= old(browsers).Keys && browsers.Keys == old(browsers).Keys
        invariant forall b :: b in todo ==> browsers[b] == old(browsers)[b]
        invariant forall b :: b in old(browsers) && b !in todo ==>
                    browsers[b] == Deliver(old(browsers), OwnedBy(old(browsers), Some(owner)), msg)[b]
        decreases |todo|
      {
        var b :| b in todo;
        todo := todo - {b};
        if browsers[b].userId == owner && browsers[b].open {
          browsers := browsers[b := browsers[b].(sent := browsers[b].sent + [msg])];
        }
      }
    }

    method UnsubscribeAllFromSession(sid: SessionId)
      modifies this`browsers
      ensures browsers == Unsubscribe(old(browsers), {sid})
    {
      var todo := browsers.Keys;
      while todo != {}
        invariant todo <= old(browsers).Keys && browsers.Keys == old(browsers).Keys
        invariant forall b :: b in todo ==> browsers[b] == old(browsers)[b]
        invariant forall b :: b in old(browsers) && b !in todo ==>
                    browsers[b] == old(browsers)[b].(subscribed := old(browsers)[b].subscribed - {sid})
        decreases |todo|
      {
        var b :| b in todo;
        todo := todo - {b};
        browsers := browsers[b := browsers[b].(subscribed := browsers[b].subscribed - {sid})];
      }
    }

    // -------------------------------------------------------------- ending sessions

    method DeleteMapping(sid: SessionId)
      requires Valid()
      modifies this`order, this`sessions
      ensures sessions == old(sessions) - {sid}
      ensures order == Pick(old(order), old(sessions).Keys - {sid})
      ensures Valid()
    {
      PickMembers(order, sessions.Keys - {sid});
      order := Pick(order, sessions.Keys - {sid});
      sessions := sessions - {sid};
    }

    method DestroySession(sid: SessionId, agentId: AgentId, why: CloseReason, notify: bool)
      requires Valid() && sid in sessions && sessions[sid].agentId == agentId
      modifies this
      ensures Valid() && Snapshot() == Removed(old(Snapshot()), [sid], why, notify)
    {
      if notify {
        SendTo(agentId, PtyClose(sid, None));
      }
      if agentId in agents {
        agents := agents[agentId := agents[agentId].(sessions := agents[agentId].sessions - {sid})];
      }
      DeleteMapping(sid);
      UnsubscribeAllFromSession(sid);
      audits := audits + [SessionClose(sid, why)];
      RemovedOne(old(Snapshot()), sid, why, notify);
    }

    method SweepStaleSessions(now: int)
      requires Valid()
      modifies this
      ensures Valid() && Snapshot() == OnSweep(old(Snapshot()), now)
    {
      ghost var was := Snapshot();
      var entries := order;
      RemovedNothing(was, TtlExpired, true);
      var i := 0;
      while i < |entries|
        invariant 0 <= i <= |entries| && entries == was.order
        invariant Valid()
        invariant Snapshot() == Removed(was, Pick(entries[..i], Stale(was, now)), TtlExpired, true)
      {
        var sid := entries[i];
        ghost var dead := Pick(entries[..i], Stale(was, now));
        NextPicked(entries, i, Stale(was, now));
        assert sid in was.sessions && sessions[sid] == was.sessions[sid];
        if now - sessions[sid].lastActivity > SESSION_TTL_MS {
          DestroySession(sid, sessions[sid].agentId, TtlExpired, true);
          RemovedTwice(was, dead, sid, TtlExpired, true);
        }
        i := i + 1;
      }
      assert entries[..i] == entries;
    }

    /** One turn of the loop in handleBrowserDisconnect, after the sessions in `done` have had theirs. */
    method StrikeBrowser(b: BrowserId, sid: SessionId, ghost base: State, ghost done: seq<SessionId>)
      requires Valid() && sid in base.sessions && sid !in done
      requires Snapshot() == Removed(WithoutBrowser(base, b, SetOf(done)), Pick(done, Struck(base, b)), BrowserDisconnect, true)
      modifies this
      ensures Valid()
      ensures Snapshot() == Removed(WithoutBrowser(base, b, SetOf(done + [sid])), Pick(done + [sid], Struck(base, b)),
                                    BrowserDisconnect, true)
    {
      ghost var dead := Pick(done, Struck(base, b));
      PickMembers(done, Struck(base, b));
      assert sid !in dead by { assert sid in dead ==> sid in SetOf(dead); }
      PickSnoc(done, sid, Struck(base, b));
      assert SetOf(done + [sid]) == SetOf(done) + {sid};
      StruckOneMore(base, b, SetOf(done), sid, dead);
      sessions := sessions[sid := sessions[sid].(browserIds := sessions[sid].browserIds - {b})];
      ghost var next := WithoutBrowser(base, b, SetOf(done + [sid]));
      assert Snapshot() == Removed(next, dead, BrowserDisconnect, true);
      assert sessions[sid] == next.sessions[sid];
      if sessions[sid].browserIds == {} {
        DestroySession(sid, sessions[sid].agentId, BrowserDisconnect, true);
        RemovedTwice(next, dead, sid, BrowserDisconnect, true);
      }
    }

    method HandleBrowserDisconnect(b: BrowserId)
      requires Valid()
      modifies this
      ensures Valid() && Snapshot() == OnBrowserClosed(old(Snapshot()), b)
    {
      browsers := browsers - {b};
      ghost var base := Snapshot();
      NoneStruck(base, b);
      AllStruck(old(Snapshot()), b);
      var entries := order;
      var i := 0;
      while i < |entries|
        invariant 0 <= i <= |entries| && entries == base.order
        invariant Valid()
        invariant Snapshot() == Removed(WithoutBrowser(base, b, SetOf(entries[..i])), Pick(entries[..i], Struck(base, b)),
                                        BrowserDisconnect, true)
      {
        NextKey(base, i);
        StrikeBrowser(b, entries[i], base, entries[..i]);
        i := i + 1;
      }
    }

    /** One turn of the loop in handleAgentDisconnect. */
    method ForgetSession(a: AgentId, sid: SessionId, ghost base: State, ghost done: seq<SessionId>)
      requires Valid() && sid in base.sessions && sid !in done
      requires Snapshot() == Forgotten(base, SetOf(done) * SessionsOf(base, a))
      modifies this
      ensures Valid() && Snapshot() == Forgotten(base, SetOf(done + [sid]) * SessionsOf(base, a))
    {
      ghost var mine := SessionsOf(base, a);
      assert SetOf(done + [sid]) == SetOf(done) + {sid};
      if sessions[sid].agentId == a {
        UnsubscribeAllFromSession(sid);
        DeleteMapping(sid);
        ForgottenOneMore(base, SetOf(done) * mine, sid);
        assert SetOf(done + [sid]) * mine == SetOf(done) * mine + {sid};
      } else {
        assert SetOf(done + [sid]) * mine == SetOf(done) * mine;
      }
    }

    method HandleAgentDisconnect(a: AgentId, owner: Option<int>)
      requires Valid()
      modifies this
      ensures Valid()
      ensures Snapshot() == Forgotten(old(Snapshot()).(browsers := Deliver(old(browsers), OwnedBy(old(browsers), owner), AgentOffline(a))),
                                      SessionsOf(old(Snapshot()), a))
    {
      TellOwner(owner, AgentOffline(a));
      ForgetSessionsOf(a);
    }

    method TellOwner(owner: Option<int>, msg: ToBrowser)
      modifies this`browsers
      ensures browsers == Deliver(old(browsers), OwnedBy(old(browsers), owner), msg)
    {
      if owner.Some? {
        BroadcastToUserBrowsers(owner.value, msg);
      } else {
        assert Deliver(browsers, OwnedBy(browsers, None), msg) == browsers;
      }
    }

    method ForgetSessionsOf(a: AgentId)
      requires Valid()
      modifies this
      ensures Valid() && Snapshot() == Forgotten(old(Snapshot()), SessionsOf(old(Snapshot()), a))
    {
      ghost var base := Snapshot();
      ghost var mine := SessionsOf(base, a);
      var entries := order;
      NoneForgotten(base, mine);
      AllForgotten(base, mine);
      var i := 0;
      while i < |entries|
        invariant 0 <= i <= |entries| && entries == base.order
        invariant Valid()
        invariant Snapshot() == Forgotten(base, SetOf(entries[..i]) * mine)
      {
        NextKey(base, i);
        ForgetSession(a, entries[i], base, entries[..i]);
        i := i + 1;
      }
    }

    // -------------------------------------------------------------- connections

    method HandleBrowserConnection(b: BrowserId, userId: int, username: string)
      modifies this`browsers
      ensures Snapshot() == OnBrowserConnect(old(Snapshot()), b, userId, username)
    {
      if |browsers| >= MAX_BROWSER_CONNECTIONS {
        return;
      }
      browsers := browsers[b := BrowserConn(userId, username, true, {}, [])];
    }

    method CloseBrowserSocket(b: BrowserId)
      modifies this`browsers
      ensures Snapshot() == OnBrowserClosing(old(Snapshot()), b)
    {
      if b in browsers {
        browsers := browsers[b := browsers[b].(open := false)];
      }
    }

    method CloseAgentSocket(a: AgentId)
      modifies this`agents
      ensures Snapshot() == OnAgentClosing(old(Snapshot()), a)
    {
      if a in agents {
        agents := agents[a := agents[a].(open := false)];
      }
    }

    method HandleAgentHello(a: AgentId, ws: nat, hello: AgentMessage, owner: Option<int>)
      requires Valid() && hello.Hello?
      modifies this
      ensures Valid() && Snapshot() == OnAgentHello(old(Snapshot()), a, ws, hello, owner)
    {
      if a in agents && agents[a].open {
        CloseAgentSocket(a);
      }
      agents := agents[a := AgentConn(ws, true, {}, [])];
      assert agents == old(agents)[a := AgentConn(ws, true, {}, [])];
      HandleAgentMessage(a, hello, 0, owner);
    }

    method HandleAgentClose(a: AgentId, ws: nat, owner: Option<int>)
      requires Valid()
      modifies this
      ensures Valid() && Snapshot() == OnAgentClosed(old(Snapshot()), a, ws, owner)
    {
      if a in agents && agents[a].ws == ws {
        agents := agents - {a};
        assert SessionsOf(Snapshot(), a) == SessionsOf(old(Snapshot()), a);
        HandleAgentDisconnect(a, owner);
      }
    }

    // -------------------------------------------------------------- messages

    method HandleAgentMessage(a: AgentId, m: AgentMessage, now: int, owner: Option<int>)
      requires Valid()
      modifies this
      ensures Valid() && Snapshot() == OnAgentMessage(old(Snapshot()), a, m, now, owner)
    {
      if m.Hello? {
        if a in agents {
          TellOwner(owner, AgentOnline(a, m.name, m.os, m.identityKey));
        }
        return;
      }
      if m.Heartbeat? || m.sid !in sessions || sessions[m.sid].agentId != a {
        return;
      }
      match m {
        case Created(sid, publicKey, signature, id) =>
          SendAlongMapping(sid, PtyCreated(a, sid, publicKey, signature, Truthy(id)), false);
        case Data(sid, payload) =>
          sessions := sessions[sid := sessions[sid].(lastActivity := now)];
          SendToSessionSubscribers(sid, PtyData(a, sid, payload));
        case Exited(sid, exitCode) =>
          SendToSessionSubscribers(sid, PtyExited(a, sid, exitCode));
          DestroySession(sid, a, ExitCode(exitCode), false);
        case Replay(sid, payload) =>
          SendToSessionSubscribers(sid, PtyReplay(a, sid, payload));
        case Failed(sid, error, id) =>
          if id.Some? && id.value != "" {
            SendAlongMapping(sid, PtyCreateError(a, error, id), true);
            DestroySession(sid, a, CreateFailedOnAgent, false);
          } else {
            SendToSessionSubscribers(sid, PtyError(a, sid, error));
          }
        case Transfer(note, sid, tid, payload) =>
          SendToSessionSubscribers(sid, FileTransfer(note, a, sid, tid, payload));
      }
    }

    /** The loop over `mapping.browserIds`; only sendToBrowser looks at the socket's state. */
    method SendAlongMapping(sid: SessionId, msg: ToBrowser, onlyOpen: bool)
      requires sid in sessions
      modifies this`browsers
      ensures browsers == Deliver(old(browsers), if onlyOpen then OpenOnly(old(browsers), sessions[sid].browserIds)
                                                 else sessions[sid].browserIds * old(browsers).Keys, msg)
    {
      ghost var was := browsers;
      ghost var to := if onlyOpen then OpenOnly(was, sessions[sid].browserIds) else sessions[sid].browserIds * was.Keys;
      var todo := sessions[sid].browserIds;
      while todo != {}
        invariant todo <= sessions[sid].browserIds && browsers.Keys == was.Keys
        invariant forall b :: b in was ==> browsers[b] == if b in to - todo then was[b].(sent := was[b].sent + [msg]) else was[b]
        decreases |todo|
      {
        var b :| b in todo;
        todo := todo - {b};
        if onlyOpen {
          SendToBrowser(b, msg);
        } else if b in browsers {
          browsers := browsers[b := browsers[b].(sent := browsers[b].sent + [msg])];
        }
      }
    }

    method CountSessions(a: AgentId, b: BrowserId) returns (ofAgent: nat, ofBrowser: nat)
      ensures ofAgent == |SessionsOf(Snapshot(), a)| && ofBrowser == |SessionsSeenBy(Snapshot(), b)|
    {
      ghost var mine, seen := SessionsOf(Snapshot(), a), SessionsSeenBy(Snapshot(), b);
      ofAgent, ofBrowser := 0, 0;
      var todo := sessions.Keys;
      NonePassed(mine, todo);
      NonePassed(seen, todo);
      while todo != {}
        invariant todo <= sessions.Keys
        invariant Passed(ofAgent, mine, todo) && Passed(ofBrowser, seen, todo)
        decreases |todo|
      {
        var sid :| sid in todo;
        PassOne(ofAgent, mine, todo, sid);
        PassOne(ofBrowser, seen, todo, sid);
        if sessions[sid].agentId == a {
          ofAgent := ofAgent + 1;
        }
        if b in sessions[sid].browserIds {
          ofBrowser := ofBrowser + 1;
        }
        todo := todo - {sid};
      }
      AllPassed(ofAgent, mine);
      AllPassed(ofBrowser, seen);
    }

    method RefuseCreate(b: BrowserId, m: BrowserMessage, error: string)
      requires m.Create?
      modifies this`browsers
      ensures browsers == Deliver(old(browsers), OpenOnly(old(browsers), {b}), PtyCreateError(m.agentId, error, Truthy(m.clientReqId)))
    {
      SendToBrowser(b, PtyCreateError(m.agentId, error, Truthy(m.clientReqId)));
    }

    method HandleCreate(b: BrowserId, m: BrowserMessage, env: Env)
      requires Valid() && m.Create? && env.newSid !in sessions
      modifies this
      ensures Valid() && Snapshot() == OnCreate(old(Snapshot()), b, m, env)
    {
      if m.agentId !in agents {
        RefuseCreate(b, m, "Agent not found or offline");
        return;
      }
      if b !in browsers || !env.owned {
        RefuseCreate(b, m, "Permission denied");
        return;
      }
      var shell, cwd := OrEmpty(m.shell), OrEmpty(m.cwd);
      if exists i :: 0 <= i < |shell| && ForbiddenInShell(shell[i]) {
        RefuseCreate(b, m, "Invalid shell path");
        return;
      }
      if 0 as char in cwd {
        RefuseCreate(b, m, "Invalid working directory");
        return;
      }
      if |sessions| >= MAX_SESSIONS {
        RefuseCreate(b, m, "Maximum total sessions reached");
        return;
      }
      var ofAgent, ofBrowser := CountSessions(m.agentId, b);
      if ofAgent >= MAX_SESSIONS_PER_AGENT {
        RefuseCreate(b, m, "Maximum sessions for this agent reached");
        return;
      }
      if ofBrowser >= MAX_SESSIONS_PER_BROWSER {
        RefuseCreate(b, m, "Maximum sessions per browser reached");
        return;
      }
      Enter(b, m, env.newSid, env.now);
    }

    method Enter(b: BrowserId, m: BrowserMessage, sid: SessionId, now: int)
      requires Valid() && m.Create? && b in browsers && m.agentId in agents && sid !in sessions
      modifies this
      ensures Valid() && Snapshot() == Entered(old(Snapshot()), b, m, sid, now)
    {
      sessions := sessions[sid := Mapping(m.agentId, {b}, now, now)];
      assert SetOf(order + [sid]) == SetOf(order) + {sid};
      assert forall i :: 0 <= i < |order| ==> order[i] in SetOf(order);
      order := order + [sid];
      browsers := browsers[b := browsers[b].(subscribed := browsers[b].subscribed + {sid})];
      agents := agents[m.agentId := agents[m.agentId].(sessions := agents[m.agentId].sessions + {sid})];
      SendTo(m.agentId, PtyCreate(sid, OrEmpty(m.shell), OrEmpty(m.cwd), m.publicKey, Truthy(m.clientReqId)));
      audits := audits + [SessionCreate(Some(browsers[b].username), sid, m.agentId)];
    }

    method HandleBrowserMessage(b: BrowserId, m: BrowserMessage, env: Env)
      requires Valid() && (m.Create? ==> env.newSid !in sessions)
      modifies this
      ensures Valid() && Snapshot() == OnBrowserMessage(old(Snapshot()), b, m, env)
    {
      if m.Create? {
        HandleCreate(b, m, env);
        return;
      }
      if m.sid !in sessions || sessions[m.sid].agentId != m.agentId || b !in sessions[m.sid].browserIds {
        return;
      }
      match m {
        case Input(a, sid, payload) =>
          sessions := sessions[sid := sessions[sid].(lastActivity := env.now)];
          SendTo(a, PtyInput(sid, payload));
        case Resize(a, sid, cols, rows, hmac) =>
          var c := if cols < 500 then cols else 500;
          var r := if rows < 500 then rows else 500;
          SendTo(a, PtyResize(sid, if c > 1 then c else 1, if r > 1 then r else 1, hmac));
        case Close(a, sid, hmac) =>
          SendTo(a, PtyClose(sid, hmac));
        case ReplayRequest(a, sid) =>
          if b in browsers {
            browsers := browsers[b := browsers[b].(subscribed := browsers[b].subscribed + {sid})];
          }
          SendTo(a, PtyReplayRequest(sid));
        case Upload(a, sid, part, tid, payload) =>
          sessions := sessions[sid := sessions[sid].(lastActivity := env.now)];
          SendTo(a, FileUpload(sid, part, tid, payload));
      }
    }

    // -------------------------------------------------------------- every event

    /** The handler of each event has the effect of the step it stands for. */
    method Dispatch(e: Event)
      requires Valid() && (e.FromBrowser? && e.bmsg.Create? ==> e.env.newSid !in sessions)
      requires e.AgentHello? ==> e.hello.Hello?
      modifies this
      ensures Valid() && Snapshot() == Step(old(Snapshot()), e)
    {
      match e {
        case BrowserConnect(b, userId, username) => HandleBrowserConnection(b, userId, username);
        case BrowserClosing(b) => CloseBrowserSocket(b);
        case BrowserClosed(b) => HandleBrowserDisconnect(b);
        case FromBrowser(b, m, env) => HandleBrowserMessage(b, m, env);
        case AgentHello(a, ws, hello, owner) => HandleAgentHello(a, ws, hello, owner);
        case AgentClosing(a) => CloseAgentSocket(a);
        case AgentClosed(a, ws, owner) => HandleAgentClose(a, ws, owner);
        case FromAgent(a, m, now, owner) => HandleAgentMessage(a, m, now, owner);
        case SweepStale(now) => SweepStaleSessions(now);
      }
    }

    /** So the handlers keep the invariant, whatever comes. */
    method Handle(e: Event)
      requires Invariant(Snapshot()) && Admissible(Snapshot(), e)
      modifies this
      ensures Snapshot() == Step(old(Snapshot()), e) && Invariant(Snapshot())
    {
      StepKeepsInvariant(Snapshot(), e);
      Dispatch(e);
    }
  }
}
