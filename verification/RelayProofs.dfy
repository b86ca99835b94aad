/** What every run of the relay keeps: coherent indexes, session limits, conservation of sessions
    and delivery to the owning browser only. */
module RelayProofs {
  import opened Prelude
  import opened RelayModel

  // ---------------------------------------------------------------- audit rows

  lemma AuditAppend(rows: seq<AuditRow>, more: seq<AuditRow>)
    ensures CreatedIds(rows + more) == CreatedIds(rows) + CreatedIds(more)
    ensures ClosedIds(rows + more) == ClosedIds(rows) + ClosedIds(more)
  {
    var all := rows + more;
    forall s | s in CreatedIds(more) ensures s in CreatedIds(all) {
      var i :| 0 <= i < |more| && more[i].SessionCreate? && more[i].sid == s;
      assert all[|rows| + i] == more[i];
    }
    forall s | s in ClosedIds(more) ensures s in ClosedIds(all) {
      var i :| 0 <= i < |more| && more[i].SessionClose? && more[i].sid == s;
      assert all[|rows| + i] == more[i];
    }
    forall s | s in CreatedIds(rows) ensures s in CreatedIds(all) {
      var i :| 0 <= i < |rows| && rows[i].SessionCreate? && rows[i].sid == s;
      assert all[i] == rows[i];
    }
    forall s | s in ClosedIds(rows) ensures s in ClosedIds(all) {
      var i :| 0 <= i < |rows| && rows[i].SessionClose? && rows[i].sid == s;
      assert all[i] == rows[i];
    }
  }

  lemma CloseRowsIds(dead: seq<SessionId>, why: CloseReason)
    ensures CreatedIds(CloseRows(dead, why)) == {}
    ensures ClosedIds(CloseRows(dead, why)) == SetOf(dead)
  {
    var rows := CloseRows(dead, why);
    forall s | s in SetOf(dead) ensures s in ClosedIds(rows) {
      var i :| 0 <= i < |dead| && dead[i] == s;
      assert rows[i].sid == s;
    }
  }

  lemma CreateRowIds(user: Option<string>, sid: SessionId, a: AgentId)
    ensures CreatedIds([SessionCreate(user, sid, a)]) == {sid}
    ensures ClosedIds([SessionCreate(user, sid, a)]) == {}
  {
    var rows := [SessionCreate(user, sid, a)];
    assert rows[0].sid in CreatedIds(rows);
  }

  // ---------------------------------------------------------------- sessions leaving

  /** Removing live sessions leaves the order list naming exactly the sessions that stay. */
  lemma OrderAfter(st: State, dead: set<SessionId>)
    requires OrderOk(st)
    ensures NoDuplicates(Pick(st.order, st.sessions.Keys - dead))
    ensures SetOf(Pick(st.order, st.sessions.Keys - dead)) == (st.sessions - dead).Keys
  {
    PickMembers(st.order, st.sessions.Keys - dead);
  }

  lemma Subset<T>(a: set<T>, b: set<T>)
    requires a <= b
    ensures |a| <= |b|
  {
    assert b == a + (b - a);
  }

  ghost predicate SameOwners(st: State, after: State, s: SessionId)
    requires s in after.sessions
  {
    && s in st.sessions
    && after.sessions[s].agentId == st.sessions[s].agentId
    && after.sessions[s].browserIds == st.sessions[s].browserIds
  }

  ghost predicate StillServed(after: State, s: SessionId)
    requires s in after.sessions
  {
    after.sessions[s].agentId in after.agents && after.sessions[s].browserIds <= after.browsers.Keys
  }

  /** The sessions `dead` are gone, and possibly connections none of the others needs. */
  ghost predicate Shrinks(st: State, after: State, dead: set<SessionId>) {
    && OrderOk(after)
    && after.sessions.Keys == st.sessions.Keys - dead
    && (forall s :: s in after.sessions ==> SameOwners(st, after, s) && StillServed(after, s))
    && after.browsers.Keys <= st.browsers.Keys
    && (forall b :: b in after.browsers ==> after.browsers[b].subscribed == st.browsers[b].subscribed - dead)
    && after.agents.Keys <= st.agents.Keys
    && (forall a :: a in after.agents ==> after.agents[a].sessions <= st.agents[a].sessions - dead)
  }

  lemma ShrunkSets(st: State, after: State, dead: set<SessionId>)
    requires Shrinks(st, after, dead)
    ensures forall b :: SessionsSeenBy(after, b) == SessionsSeenBy(st, b) - dead
    ensures forall a :: SessionsOf(after, a) == SessionsOf(st, a) - dead
  {
    forall b ensures SessionsSeenBy(after, b) == SessionsSeenBy(st, b) - dead {
      forall s ensures s in SessionsSeenBy(after, b) <==> s in SessionsSeenBy(st, b) - dead {
        if s in after.sessions { assert SameOwners(st, after, s); }
      }
    }
    forall a ensures SessionsOf(after, a) == SessionsOf(st, a) - dead {
      forall s ensures s in SessionsOf(after, a) <==> s in SessionsOf(st, a) - dead {
        if s in after.sessions { assert SameOwners(st, after, s); }
      }
    }
  }

  lemma ShrinksMappings(st: State, after: State, dead: set<SessionId>)
    requires MappingsOk(st) && Shrinks(st, after, dead)
    ensures MappingsOk(after)
  {
    forall s | s in after.sessions ensures HasBrowser(after, s) && after.sessions[s].agentId in after.agents {
      assert SameOwners(st, after, s) && StillServed(after, s) && HasBrowser(st, s);
      var b :| b in st.browsers && st.sessions[s].browserIds == {b};
      assert b in after.sessions[s].browserIds;
    }
  }

  lemma ShrinksLimits(st: State, after: State, dead: set<SessionId>)
    requires WithinLimits(st) && Shrinks(st, after, dead)
    ensures WithinLimits(after)
  {
    ShrunkSets(st, after, dead);
    forall b | b in after.browsers ensures |SessionsSeenBy(after, b)| <= MAX_SESSIONS_PER_BROWSER {
      Subset(SessionsSeenBy(after, b), SessionsSeenBy(st, b));
    }
    forall a | a in after.agents ensures |SessionsOf(after, a)| <= MAX_SESSIONS_PER_AGENT {
      Subset(SessionsOf(after, a), SessionsOf(st, a));
    }
    Subset(after.browsers.Keys, st.browsers.Keys);
  }

  lemma ShrinksSets(st: State, after: State, dead: set<SessionId>)
    requires SubscriptionsOk(st) && AgentSetsOk(st) && Shrinks(st, after, dead)
    ensures SubscriptionsOk(after) && AgentSetsOk(after)
  {
    ShrunkSets(st, after, dead);
  }

  lemma ShrinksKeeps(st: State, after: State, dead: set<SessionId>)
    requires Coherent(st) && WithinLimits(st) && Shrinks(st, after, dead)
    ensures Coherent(after) && WithinLimits(after)
  {
    ShrinksMappings(st, after, dead);
    ShrinksSets(st, after, dead);
    ShrinksLimits(st, after, dead);
  }

  lemma RemovedAccounted(st: State, dead: seq<SessionId>, why: CloseReason, notify: bool)
    requires Accounted(st) && NoDuplicates(dead) && SetOf(dead) <= st.sessions.Keys
    ensures Accounted(Removed(st, dead, why, notify))
    ensures Lost(Removed(st, dead, why, notify)) == Lost(st)
  {
    AuditAppend(st.audits, CloseRows(dead, why));
    CloseRowsIds(dead, why);
    var rows := st.audits + CloseRows(dead, why);
    forall i, j | 0 <= i < j < |rows| && rows[i].SessionClose? && rows[j].SessionClose?
      ensures rows[i].sid != rows[j].sid
    {
      if i < |st.audits| <= j {
        assert rows[i].sid in ClosedIds(st.audits);
        assert rows[j].sid == dead[j - |st.audits|] && rows[j].sid in SetOf(dead);
      }
    }
  }

  lemma RemovedShape(st: State, dead: seq<SessionId>, why: CloseReason, notify: bool)
    requires OrderOk(st) && AgentSetsOk(st) && SetOf(dead) <= st.sessions.Keys
    requires forall s :: s in st.sessions && s !in dead ==> StillServed(st, s)
    ensures Shrinks(st, Removed(st, dead, why, notify), SetOf(dead))
  {
    OrderAfter(st, SetOf(dead));
    var after := Removed(st, dead, why, notify);
    forall a | a in after.agents ensures after.agents[a].sessions <= st.agents[a].sessions - SetOf(dead) {
      assert st.agents[a].sessions <= SessionsOf(st, a);
    }
    forall s | s in after.sessions ensures SameOwners(st, after, s) && StillServed(after, s) {
      assert StillServed(st, s);
    }
  }

  lemma MappedAreServed(st: State)
    requires MappingsOk(st)
    ensures forall s :: s in st.sessions ==> StillServed(st, s)
  {
    forall s | s in st.sessions ensures StillServed(st, s) {
      assert HasBrowser(st, s);
    }
  }

  lemma RemovedKeeps(st: State, dead: seq<SessionId>, why: CloseReason, notify: bool)
    requires Invariant(st) && NoDuplicates(dead) && SetOf(dead) <= st.sessions.Keys
    ensures Invariant(Removed(st, dead, why, notify))
    ensures Lost(Removed(st, dead, why, notify)) == Lost(st)
  {
    RemovedAccounted(st, dead, why, notify);
    MappedAreServed(st);
    RemovedShape(st, dead, why, notify);
    ShrinksKeeps(st, Removed(st, dead, why, notify), SetOf(dead));
  }

  lemma PickedLive(st: State, chosen: set<SessionId>)
    requires OrderOk(st) && chosen <= st.sessions.Keys
    ensures NoDuplicates(Pick(st.order, chosen)) && SetOf(Pick(st.order, chosen)) == chosen
  {
    PickMembers(st.order, chosen);
  }

  // ---------------------------------------------------------------- events that move no session

  /** Same sessions with the same owners, same subscriptions, same agent sets. */
  ghost predicate SameShape(st: State, after: State) {
    && after.order == st.order && after.audits == st.audits
    && after.sessions.Keys == st.sessions.Keys
    && (forall s :: s in after.sessions ==> SameOwners(st, after, s))
    && after.browsers.Keys == st.browsers.Keys
    && (forall b :: b in st.browsers ==> after.browsers[b].subscribed == st.browsers[b].subscribed)
    && after.agents.Keys == st.agents.Keys
    && (forall a :: a in st.agents ==> after.agents[a].sessions == st.agents[a].sessions)
  }

  lemma SameShapeShrinks(st: State, after: State)
    requires OrderOk(st) && MappingsOk(st) && SameShape(st, after)
    ensures Shrinks(st, after, {})
  {
    MappedAreServed(st);
    forall s | s in after.sessions ensures SameOwners(st, after, s) && StillServed(after, s) {
      assert StillServed(st, s);
    }
  }

  lemma SameShapeKeeps(st: State, after: State)
    requires Invariant(st) && SameShape(st, after)
    ensures Invariant(after) && Lost(after) == Lost(st)
  {
    SameShapeShrinks(st, after);
    ShrinksKeeps(st, after, {});
  }

  lemma AgentMessageShape(st: State, a: AgentId, m: AgentMessage, now: int, owner: Option<int>)
    requires !m.Exited? && !(m.Failed? && Truthy(m.clientReqId).Some?)
    ensures SameShape(st, OnAgentMessage(st, a, m, now, owner))
  {
  }

  lemma ReplayRequestShape(st: State, b: BrowserId, m: BrowserMessage, env: Env)
    requires Coherent(st) && m.ReplayRequest?
    ensures SameShape(st, OnBrowserMessage(st, b, m, env))
  {
    if MayUse(st, b, m) && b in st.browsers {
      assert m.sid in SessionsSeenBy(st, b);
    }
  }

  lemma ForwardedShape(st: State, b: BrowserId, m: BrowserMessage, env: Env)
    requires !m.Create? && !m.ReplayRequest?
    ensures SameShape(st, OnBrowserMessage(st, b, m, env))
  {
  }

  lemma BrowserMessageShape(st: State, b: BrowserId, m: BrowserMessage, env: Env)
    requires Coherent(st) && !m.Create?
    ensures SameShape(st, OnBrowserMessage(st, b, m, env))
  {
    if m.ReplayRequest? {
      ReplayRequestShape(st, b, m, env);
    } else {
      ForwardedShape(st, b, m, env);
    }
  }

  lemma RefusedShape(st: State, b: BrowserId, m: BrowserMessage, env: Env)
    requires m.Create? && CreateError(st, b, m, env.owned).Some?
    ensures SameShape(st, OnCreate(st, b, m, env))
  {
  }

  // ---------------------------------------------------------------- connections and creation

  lemma ConnectSets(st: State, after: State, b: BrowserId, conn: BrowserConn)
    requires MappingsOk(st) && b !in st.browsers && after == st.(browsers := st.browsers[b := conn])
    ensures MappingsOk(after)
    ensures SessionsSeenBy(after, b) == {}
    ensures forall x :: SessionsSeenBy(after, x) == SessionsSeenBy(st, x) && SessionsOf(after, x) == SessionsOf(st, x)
  {
    forall s | s in st.sessions ensures HasBrowser(after, s) && b !in st.sessions[s].browserIds {
      assert HasBrowser(st, s);
      var c :| c in st.browsers && st.sessions[s].browserIds == {c};
      assert c in after.browsers;
    }
    forall x ensures SessionsSeenBy(after, x) == SessionsSeenBy(st, x) && SessionsOf(after, x) == SessionsOf(st, x) {}
  }

  lemma ConnectLimits(st: State, after: State, b: BrowserId, conn: BrowserConn)
    requires WithinLimits(st) && MappingsOk(st) && b !in st.browsers && |st.browsers| < MAX_BROWSER_CONNECTIONS
    requires after == st.(browsers := st.browsers[b := conn])
    ensures WithinLimits(after)
  {
    ConnectSets(st, after, b, conn);
    assert after.browsers.Keys == st.browsers.Keys + {b};
  }

  lemma ConnectKeeps(st: State, b: BrowserId, userId: int, username: string)
    requires Invariant(st) && b !in st.browsers
    ensures Invariant(OnBrowserConnect(st, b, userId, username))
    ensures Lost(OnBrowserConnect(st, b, userId, username)) == Lost(st)
  {
    if |st.browsers| < MAX_BROWSER_CONNECTIONS {
      var after, conn := OnBrowserConnect(st, b, userId, username), BrowserConn(userId, username, true, {}, []);
      ConnectSets(st, after, b, conn);
      ConnectLimits(st, after, b, conn);
    }
  }

  /** One new session, owned by browser `b` and agent `a`, entered in all three indexes. */
  ghost predicate Grows(st: State, after: State, sid: SessionId, b: BrowserId, a: AgentId) {
    && after.order == st.order + [sid]
    && after.sessions.Keys == st.sessions.Keys + {sid}
    && (forall s :: s in st.sessions ==> after.sessions[s] == st.sessions[s])
    && after.sessions[sid].agentId == a && after.sessions[sid].browserIds == {b}
    && after.browsers.Keys == st.browsers.Keys && b in st.browsers
    && (forall x :: x in st.browsers ==>
          after.browsers[x].subscribed == st.browsers[x].subscribed + if x == b then {sid} else {})
    && after.agents.Keys == st.agents.Keys && a in st.agents
    && (forall x :: x in st.agents ==>
          after.agents[x].sessions == st.agents[x].sessions + if x == a then {sid} else {})
  }

  lemma GrownSets(st: State, after: State, sid: SessionId, b: BrowserId, a: AgentId)
    requires sid !in st.sessions && Grows(st, after, sid, b, a)
    ensures forall x :: SessionsSeenBy(after, x) == SessionsSeenBy(st, x) + if x == b then {sid} else {}
    ensures forall x :: SessionsOf(after, x) == SessionsOf(st, x) + if x == a then {sid} else {}
  {
    forall x ensures SessionsSeenBy(after, x) == SessionsSeenBy(st, x) + (if x == b then {sid} else {}) {}
    forall x ensures SessionsOf(after, x) == SessionsOf(st, x) + (if x == a then {sid} else {}) {}
  }

  lemma GrowsOrder(st: State, after: State, sid: SessionId, b: BrowserId, a: AgentId)
    requires OrderOk(st) && sid !in st.sessions && Grows(st, after, sid, b, a)
    ensures OrderOk(after)
  {
    assert SetOf(after.order) == SetOf(st.order) + {sid};
    assert forall i :: 0 <= i < |st.order| ==> st.order[i] in SetOf(st.order);
  }

  lemma GrowsMapped(st: State, after: State, sid: SessionId, b: BrowserId, a: AgentId)
    requires MappingsOk(st) && sid !in st.sessions && Grows(st, after, sid, b, a)
    ensures MappingsOk(after)
  {
    forall s | s in after.sessions ensures HasBrowser(after, s) && after.sessions[s].agentId in after.agents {
      if s == sid {
        assert b in after.browsers;
      } else {
        assert HasBrowser(st, s);
      }
    }
  }

  lemma GrowsMappings(st: State, after: State, sid: SessionId, b: BrowserId, a: AgentId)
    requires OrderOk(st) && MappingsOk(st) && sid !in st.sessions && Grows(st, after, sid, b, a)
    ensures OrderOk(after) && MappingsOk(after)
  {
    GrowsOrder(st, after, sid, b, a);
    GrowsMapped(st, after, sid, b, a);
  }

  lemma GrowsSets(st: State, after: State, sid: SessionId, b: BrowserId, a: AgentId)
    requires SubscriptionsOk(st) && AgentSetsOk(st) && sid !in st.sessions && Grows(st, after, sid, b, a)
    ensures SubscriptionsOk(after) && AgentSetsOk(after)
  {
    GrownSets(st, after, sid, b, a);
  }

  lemma GrowsLimits(st: State, after: State, sid: SessionId, b: BrowserId, a: AgentId)
    requires WithinLimits(st) && sid !in st.sessions && Grows(st, after, sid, b, a)
    requires |SessionsOf(st, a)| < MAX_SESSIONS_PER_AGENT && |SessionsSeenBy(st, b)| < MAX_SESSIONS_PER_BROWSER
    ensures WithinLimits(after)
  {
    GrownSets(st, after, sid, b, a);
    forall x | x in after.agents ensures |SessionsOf(after, x)| <= MAX_SESSIONS_PER_AGENT {
      assert SessionsOf(after, x) == SessionsOf(st, x) + if x == a then {sid} else {};
    }
    forall x | x in after.browsers ensures |SessionsSeenBy(after, x)| <= MAX_SESSIONS_PER_BROWSER {
      assert SessionsSeenBy(after, x) == SessionsSeenBy(st, x) + if x == b then {sid} else {};
    }
    assert |after.browsers.Keys| == |st.browsers.Keys|;
  }

  lemma EnteredShape(st: State, b: BrowserId, m: BrowserMessage, sid: SessionId, now: int)
    requires m.Create? && b in st.browsers && m.agentId in st.agents && sid !in st.sessions
    ensures Grows(st, Entered(st, b, m, sid, now), sid, b, m.agentId)
  {
  }

  lemma CreateHadRoom(st: State, b: BrowserId, m: BrowserMessage, owned: bool)
    requires m.Create? && CreateError(st, b, m, owned).None?
    ensures b in st.browsers && m.agentId in st.agents
    ensures |SessionsOf(st, m.agentId)| < MAX_SESSIONS_PER_AGENT && |SessionsSeenBy(st, b)| < MAX_SESSIONS_PER_BROWSER
  {
  }

  lemma CreateAccounted(st: State, row: AuditRow, after: State)
    requires Accounted(st) && row.SessionCreate? && row.sid !in CreatedIds(st.audits)
    requires after.audits == st.audits + [row] && after.sessions.Keys == st.sessions.Keys + {row.sid}
    ensures Accounted(after) && Lost(after) == Lost(st)
  {
    AuditAppend(st.audits, [row]);
    CreateRowIds(row.user, row.sid, row.agentId);
    var rows := after.audits;
    forall i, j | 0 <= i < j < |rows| && rows[i].SessionCreate? && rows[j].SessionCreate?
      ensures rows[i].sid != rows[j].sid
    {
      if j == |st.audits| {
        assert rows[i].sid in CreatedIds(st.audits);
      }
    }
  }

  lemma GrowsKeeps(st: State, after: State, row: AuditRow, b: BrowserId)
    requires Invariant(st) && row.SessionCreate? && row.sid !in CreatedIds(st.audits)
    requires Grows(st, after, row.sid, b, row.agentId) && after.audits == st.audits + [row]
    requires |SessionsOf(st, row.agentId)| < MAX_SESSIONS_PER_AGENT && |SessionsSeenBy(st, b)| < MAX_SESSIONS_PER_BROWSER
    ensures Invariant(after) && Lost(after) == Lost(st)
  {
    assert row.sid !in st.sessions.Keys;
    GrowsMappings(st, after, row.sid, b, row.agentId);
    GrowsSets(st, after, row.sid, b, row.agentId);
    GrowsLimits(st, after, row.sid, b, row.agentId);
    CreateAccounted(st, row, after);
  }

  lemma CreateKeeps(st: State, b: BrowserId, m: BrowserMessage, env: Env)
    requires Invariant(st) && m.Create? && env.newSid !in CreatedIds(st.audits)
    requires CreateError(st, b, m, env.owned).None?
    ensures Invariant(OnCreate(st, b, m, env)) && Lost(OnCreate(st, b, m, env)) == Lost(st)
  {
    CreateHadRoom(st, b, m, env.owned);
    assert env.newSid !in st.sessions.Keys;
    EnteredShape(st, b, m, env.newSid, env.now);
    GrowsKeeps(st, OnCreate(st, b, m, env), SessionCreate(Some(st.browsers[b].username), env.newSid, m.agentId), b);
  }

  lemma BrowserMessageKeeps(st: State, b: BrowserId, m: BrowserMessage, env: Env)
    requires Invariant(st) && (m.Create? ==> env.newSid !in CreatedIds(st.audits))
    ensures Invariant(OnBrowserMessage(st, b, m, env))
    ensures Lost(OnBrowserMessage(st, b, m, env)) == Lost(st)
  {
    var after := OnBrowserMessage(st, b, m, env);
    if !m.Create? {
      BrowserMessageShape(st, b, m, env);
      SameShapeKeeps(st, after);
    } else if CreateError(st, b, m, env.owned).Some? {
      RefusedShape(st, b, m, env);
      SameShapeKeeps(st, after);
    } else {
      CreateKeeps(st, b, m, env);
    }
  }

  /** Striking the one browser of a session empties it; striking any other browser does nothing. */
  lemma StruckBrowser(st: State, b: BrowserId)
    requires MappingsOk(st)
    ensures var gone := WithoutBrowser(st.(browsers := st.browsers - {b}), b, st.sessions.Keys);
            && Orphans(gone) == SessionsSeenBy(st, b)
            && forall s :: s in st.sessions && s !in SessionsSeenBy(st, b) ==> SameOwners(st, gone, s) && StillServed(gone, s)
  {
    var gone := WithoutBrowser(st.(browsers := st.browsers - {b}), b, st.sessions.Keys);
    forall s | s in st.sessions
      ensures s in Orphans(gone) <==> s in SessionsSeenBy(st, b)
      ensures s !in SessionsSeenBy(st, b) ==> SameOwners(st, gone, s) && StillServed(gone, s)
    {
      assert HasBrowser(st, s);
      var c :| c in st.browsers && st.sessions[s].browserIds == {c};
      assert gone.sessions[s].browserIds == {c} - {b};
      if c == b {
        assert gone.sessions[s].browserIds == {};
      } else {
        assert c in gone.sessions[s].browserIds;
        assert gone.sessions[s].browserIds == {c};
      }
    }
  }

  lemma BrowserClosedShape(st: State, b: BrowserId)
    requires Coherent(st)
    ensures Shrinks(st, OnBrowserClosed(st, b), SessionsSeenBy(st, b))
  {
    StruckBrowser(st, b);
    var gone := WithoutBrowser(st.(browsers := st.browsers - {b}), b, st.sessions.Keys);
    PickedLive(gone, Orphans(gone));
    forall a ensures SessionsOf(gone, a) == SessionsOf(st, a) {}
    var dead := Pick(gone.order, Orphans(gone));
    var after := OnBrowserClosed(st, b);
    RemovedShape(gone, dead, BrowserDisconnect, true);
    forall s | s in after.sessions ensures SameOwners(st, after, s) && StillServed(after, s) {
      assert SameOwners(gone, after, s) && StillServed(gone, s) && SameOwners(st, gone, s);
    }
  }

  lemma BrowserClosedKeeps(st: State, b: BrowserId)
    requires Invariant(st)
    ensures Invariant(OnBrowserClosed(st, b))
    ensures Lost(OnBrowserClosed(st, b)) == Lost(st)
  {
    BrowserClosedShape(st, b);
    ShrinksKeeps(st, OnBrowserClosed(st, b), SessionsSeenBy(st, b));
    BrowserClosedAccounted(st, b);
  }

  lemma BrowserClosedAccounted(st: State, b: BrowserId)
    requires OrderOk(st) && Accounted(st)
    ensures Accounted(OnBrowserClosed(st, b))
    ensures Lost(OnBrowserClosed(st, b)) == Lost(st)
  {
    var gone := WithoutBrowser(st.(browsers := st.browsers - {b}), b, st.sessions.Keys);
    assert gone.sessions.Keys == st.sessions.Keys;
    PickedLive(gone, Orphans(gone));
    RemovedAccounted(gone, Pick(gone.order, Orphans(gone)), BrowserDisconnect, true);
  }

  lemma AgentClosedShape(st: State, a: AgentId, ws: nat, owner: Option<int>)
    requires Coherent(st) && a in st.agents && st.agents[a].ws == ws
    ensures Shrinks(st, OnAgentClosed(st, a, ws, owner), SessionsOf(st, a))
  {
    var after := OnAgentClosed(st, a, ws, owner);
    OrderAfter(st, SessionsOf(st, a));
    MappedAreServed(st);
    forall s | s in after.sessions ensures SameOwners(st, after, s) && StillServed(after, s) {
      assert StillServed(st, s);
    }
    forall x | x in after.agents ensures after.agents[x].sessions <= st.agents[x].sessions - SessionsOf(st, a) {
      assert st.agents[x].sessions <= SessionsOf(st, x);
    }
  }

  lemma AgentClosedAccounted(st: State, a: AgentId, ws: nat, owner: Option<int>)
    requires Accounted(st) && a in st.agents && st.agents[a].ws == ws
    ensures Accounted(OnAgentClosed(st, a, ws, owner))
    ensures Lost(OnAgentClosed(st, a, ws, owner)) == Lost(st) + SessionsOf(st, a)
  {
    var after := OnAgentClosed(st, a, ws, owner);
    assert after.audits == st.audits && after.sessions.Keys == st.sessions.Keys - SessionsOf(st, a);
  }

  lemma AgentClosedKeeps(st: State, a: AgentId, ws: nat, owner: Option<int>)
    requires Invariant(st) && a in st.agents && st.agents[a].ws == ws
    ensures Invariant(OnAgentClosed(st, a, ws, owner))
    ensures Lost(OnAgentClosed(st, a, ws, owner)) == Lost(st) + SessionsOf(st, a)
  {
    AgentClosedShape(st, a, ws, owner);
    AgentClosedAccounted(st, a, ws, owner);
    ShrinksKeeps(st, OnAgentClosed(st, a, ws, owner), SessionsOf(st, a));
  }

  /** A second connection for the same agent starts with no sessions of its own; the mapping keeps them. */
  lemma ReplacedKeeps(st: State, after: State, a: AgentId, ws: nat)
    requires Invariant(st) && after == st.(agents := st.agents[a := AgentConn(ws, true, {}, [])])
    ensures Invariant(after) && Lost(after) == Lost(st)
  {
    forall x ensures SessionsOf(after, x) == SessionsOf(st, x) && SessionsSeenBy(after, x) == SessionsSeenBy(st, x) {}
    if a !in st.agents {
      assert SessionsOf(st, a) == {};
    }
    assert AgentLimits(after) && BrowserLimits(after);
    forall s | s in after.sessions ensures HasBrowser(after, s) {
      assert HasBrowser(st, s);
    }
  }

  lemma AgentHelloKeeps(st: State, a: AgentId, ws: nat, hello: AgentMessage, owner: Option<int>)
    requires Invariant(st) && hello.Hello?
    ensures Invariant(OnAgentHello(st, a, ws, hello, owner))
    ensures Lost(OnAgentHello(st, a, ws, hello, owner)) == Lost(st)
  {
    var mid := st.(agents := st.agents[a := AgentConn(ws, true, {}, [])]);
    ReplacedKeeps(st, mid, a, ws);
    AgentMessageShape(mid, a, hello, 0, owner);
    SameShapeKeeps(mid, OnAgentHello(st, a, ws, hello, owner));
  }

  lemma ClosingShape(st: State, id: Uuid)
    ensures SameShape(st, OnBrowserClosing(st, id)) && SameShape(st, OnAgentClosing(st, id))
  {
  }

  lemma SweepKeeps(st: State, now: int)
    requires Invariant(st)
    ensures Invariant(OnSweep(st, now)) && Lost(OnSweep(st, now)) == Lost(st)
  {
    PickedLive(st, Stale(st, now));
    RemovedKeeps(st, Pick(st.order, Stale(st, now)), TtlExpired, true);
  }

  /** pty.exited and a failed creation are passed on, then the session is removed. */
  lemma EndingMessageKeeps(st: State, a: AgentId, m: AgentMessage, now: int, owner: Option<int>)
    requires Invariant(st) && MayReport(st, a, m) && (m.Exited? || (m.Failed? && Truthy(m.clientReqId).Some?))
    ensures Invariant(OnAgentMessage(st, a, m, now, owner))
    ensures Lost(OnAgentMessage(st, a, m, now, owner)) == Lost(st)
  {
    var told := st.(browsers := Deliver(st.browsers, Recipients(st, m), Report(a, m)));
    ToldShape(st, Recipients(st, m), Report(a, m));
    SameShapeKeeps(st, told);
    RemovedKeeps(told, [m.sid], if m.Exited? then ExitCode(m.exitCode) else CreateFailedOnAgent, false);
  }

  lemma ToldShape(st: State, to: set<BrowserId>, msg: ToBrowser)
    ensures SameShape(st, st.(browsers := Deliver(st.browsers, to, msg)))
  {
  }

  lemma AgentMessageKeeps(st: State, a: AgentId, m: AgentMessage, now: int, owner: Option<int>)
    requires Invariant(st)
    ensures Invariant(OnAgentMessage(st, a, m, now, owner))
    ensures Lost(OnAgentMessage(st, a, m, now, owner)) == Lost(st)
  {
    var ending := m.Exited? || (m.Failed? && Truthy(m.clientReqId).Some?);
    if ending {
      if MayReport(st, a, m) {
        EndingMessageKeeps(st, a, m, now, owner);
      }
    } else {
      AgentMessageShape(st, a, m, now, owner);
      SameShapeKeeps(st, OnAgentMessage(st, a, m, now, owner));
    }
  }

  // ---------------------------------------------------------------- every step, every run

  function LostBy(st: State, e: Event): set<SessionId> {
    if e.AgentClosed? && e.agentId in st.agents && st.agents[e.agentId].ws == e.ws then SessionsOf(st, e.agentId) else {}
  }

  ghost predicate KeptBy(st: State, e: Event) {
    Invariant(Step(st, e)) && Lost(Step(st, e)) == Lost(st) + LostBy(st, e)
  }

  /** The events after which sessions may be gone. */
  lemma StepIs(st: State, e: Event)
    ensures e.SweepStale? ==> Step(st, e) == OnSweep(st, e.now)
    ensures e.BrowserClosed? ==> Step(st, e) == OnBrowserClosed(st, e.browserId)
    ensures e.FromAgent? ==> Step(st, e) == OnAgentMessage(st, e.agentId, e.amsg, e.now, e.owner)
    ensures e.AgentClosed? ==> Step(st, e) == OnAgentClosed(st, e.agentId, e.ws, e.owner)
    ensures !e.AgentClosed? ==> LostBy(st, e) == {}
  {
  }

  lemma NoneLost(st: State, e: Event, after: State)
    requires after == Step(st, e) && LostBy(st, e) == {} && Invariant(after) && Lost(after) == Lost(st)
    ensures KeptBy(st, e)
  {
  }

  lemma ConnectStepKeeps(st: State, e: Event)
    requires Invariant(st) && Admissible(st, e) && e.BrowserConnect?
    ensures KeptBy(st, e)
  {
    ConnectKeeps(st, e.browserId, e.userId, e.username);
  }

  lemma SameShapeStepKeeps(st: State, e: Event, after: State)
    requires Invariant(st) && after == Step(st, e) && !e.AgentClosed? && SameShape(st, after)
    ensures KeptBy(st, e)
  {
    SameShapeKeeps(st, after);
  }

  lemma BrowserClosingStepKeeps(st: State, e: Event)
    requires Invariant(st) && e.BrowserClosing?
    ensures KeptBy(st, e)
  {
    ClosingShape(st, e.browserId);
    SameShapeStepKeeps(st, e, OnBrowserClosing(st, e.browserId));
  }

  lemma BrowserClosedStepKeeps(st: State, e: Event)
    requires Invariant(st) && e.BrowserClosed?
    ensures KeptBy(st, e)
  {
    StepIs(st, e);
    BrowserClosedKeeps(st, e.browserId);
    NoneLost(st, e, OnBrowserClosed(st, e.browserId));
  }

  lemma RequestStepKeeps(st: State, e: Event)
    requires Invariant(st) && Admissible(st, e) && e.FromBrowser?
    ensures KeptBy(st, e)
  {
    BrowserMessageKeeps(st, e.browserId, e.bmsg, e.env);
  }

  lemma HelloStepKeeps(st: State, e: Event)
    requires Invariant(st) && Admissible(st, e) && e.AgentHello?
    ensures KeptBy(st, e)
  {
    AgentHelloKeeps(st, e.agentId, e.ws, e.hello, e.owner);
  }

  lemma ReportStepKeeps(st: State, e: Event)
    requires Invariant(st) && e.FromAgent?
    ensures KeptBy(st, e)
  {
    StepIs(st, e);
    AgentMessageKeeps(st, e.agentId, e.amsg, e.now, e.owner);
    NoneLost(st, e, OnAgentMessage(st, e.agentId, e.amsg, e.now, e.owner));
  }

  lemma AgentClosingStepKeeps(st: State, e: Event)
    requires Invariant(st) && e.AgentClosing?
    ensures KeptBy(st, e)
  {
    ClosingShape(st, e.agentId);
    SameShapeStepKeeps(st, e, OnAgentClosing(st, e.agentId));
  }

  lemma SweepStepKeeps(st: State, e: Event)
    requires Invariant(st) && e.SweepStale?
    ensures KeptBy(st, e)
  {
    StepIs(st, e);
    SweepKeeps(st, e.now);
    NoneLost(st, e, OnSweep(st, e.now));
  }

  lemma CurrentCloseKeeps(st: State, e: Event)
    requires Invariant(st) && e.AgentClosed? && e.agentId in st.agents && st.agents[e.agentId].ws == e.ws
    ensures KeptBy(st, e)
  {
    StepIs(st, e);
    AgentClosedKeeps(st, e.agentId, e.ws, e.owner);
  }

  /** The close of a connection that has been replaced changes nothing. */
  lemma StaleCloseKeeps(st: State, e: Event)
    requires Invariant(st) && e.AgentClosed? && !(e.agentId in st.agents && st.agents[e.agentId].ws == e.ws)
    ensures Step(st, e) == st && KeptBy(st, e)
  {
  }

  lemma EveryStepKeeps(st: State, e: Event)
    requires Invariant(st) && Admissible(st, e)
    ensures KeptBy(st, e)
  {
    match e {
      case BrowserConnect(_, _, _) => ConnectStepKeeps(st, e);
      case BrowserClosing(_) => BrowserClosingStepKeeps(st, e);
      case BrowserClosed(_) => BrowserClosedStepKeeps(st, e);
      case FromBrowser(_, _, _) => RequestStepKeeps(st, e);
      case AgentHello(_, _, _, _) => HelloStepKeeps(st, e);
      case AgentClosing(_) => AgentClosingStepKeeps(st, e);
      case AgentClosed(a, ws, _) =>
        if a in st.agents && st.agents[a].ws == ws { CurrentCloseKeeps(st, e); } else { StaleCloseKeeps(st, e); }
      case FromAgent(_, _, _, _) => ReportStepKeeps(st, e);
      case SweepStale(_) => SweepStepKeeps(st, e);
    }
  }

  lemma StepKeepsInvariant(st: State, e: Event)
    requires Invariant(st) && Admissible(st, e)
    ensures Invariant(Step(st, e))
    ensures Lost(Step(st, e)) == Lost(st) + LostBy(st, e)
  {
    EveryStepKeeps(st, e);
  }

  lemma EmptyRelay()
    ensures Invariant(Initial)
  {
    assert CreatedIds([]) == {} && ClosedIds([]) == {};
  }

  lemma {:induction false} RunKeepsInvariant(states: seq<State>, events: seq<Event>, n: nat)
    requires Run(states, events) && n < |states|
    ensures Invariant(states[n])
  {
    if n == 0 {
      EmptyRelay();
    } else {
      RunKeepsInvariant(states, events, n - 1);
      StepKeepsInvariant(states[n - 1], events[n - 1]);
    }
  }

  // ---------------------------------------------------------------- counting

  function SeenByAny(st: State, bs: set<BrowserId>): set<SessionId> {
    set s | s in st.sessions && st.sessions[s].browserIds * bs != {}
  }

  lemma {:induction false} SeenByAnyBound(st: State, bs: set<BrowserId>)
    requires BrowserLimits(st) && bs <= st.browsers.Keys
    ensures |SeenByAny(st, bs)| <= MAX_SESSIONS_PER_BROWSER * |bs|
    decreases |bs|
  {
    if bs == {} {
      assert SeenByAny(st, bs) == {};
    } else {
      var b :| b in bs;
      var rest := bs - {b};
      SeenByAnyBound(st, rest);
      forall s | s in SeenByAny(st, bs) ensures s in SeenByAny(st, rest) + SessionsSeenBy(st, b) {
        var x :| x in st.sessions[s].browserIds * bs;
        assert x == b || x in st.sessions[s].browserIds * rest;
      }
      Subset(SeenByAny(st, bs), SeenByAny(st, rest) + SessionsSeenBy(st, b));
    }
  }

  lemma EverySessionIsSeen(st: State)
    requires MappingsOk(st)
    ensures SeenByAny(st, st.browsers.Keys) == st.sessions.Keys
  {
    forall s | s in st.sessions ensures s in SeenByAny(st, st.browsers.Keys) {
      assert HasBrowser(st, s);
      var b :| b in st.browsers && st.sessions[s].browserIds == {b};
      assert b in st.sessions[s].browserIds * st.browsers.Keys;
    }
  }

  /** In every reachable state the sessions number at most five per connected browser. */
  lemma TotalSessionsBound(st: State)
    requires Invariant(st)
    ensures |st.sessions| <= MAX_SESSIONS_PER_BROWSER * |st.browsers|
  {
    EverySessionIsSeen(st);
    SeenByAnyBound(st, st.browsers.Keys);
  }

  lemma OthersSee(st: State, b: BrowserId)
    requires MappingsOk(st) && BrowserLimits(st) && b in st.browsers
    ensures |st.sessions| <= MAX_SESSIONS_PER_BROWSER * (|st.browsers| - 1) + |SessionsSeenBy(st, b)|
  {
    EverySessionIsSeen(st);
    var others := st.browsers.Keys - {b};
    SeenByAnyBound(st, others);
    forall s | s in st.sessions.Keys ensures s in SeenByAny(st, others) + SessionsSeenBy(st, b) {
      assert s in SeenByAny(st, st.browsers.Keys);
      var x :| x in st.sessions[s].browserIds * st.browsers.Keys;
      assert x == b || x in st.sessions[s].browserIds * others;
    }
    Subset(st.sessions.Keys, SeenByAny(st, others) + SessionsSeenBy(st, b));
  }

  /** The 500-session check decides nothing: whenever it would reject, the per-browser check rejects too. */
  lemma GlobalLimitIsRedundant(st: State, b: BrowserId, a: AgentId)
    requires Invariant(st) && b in st.browsers
    ensures |st.sessions| >= MAX_SESSIONS ==> |SessionsSeenBy(st, b)| >= MAX_SESSIONS_PER_BROWSER
    ensures LimitError(st, b, a).Some? <==>
            |SessionsOf(st, a)| >= MAX_SESSIONS_PER_AGENT || |SessionsSeenBy(st, b)| >= MAX_SESSIONS_PER_BROWSER
  {
    OthersSee(st, b);
  }

  // ---------------------------------------------------------------- conservation

  function LostInRun(states: seq<State>, events: seq<Event>, n: nat): set<SessionId>
    requires n <= |events| <= |states|
  {
    if n == 0 then {} else LostInRun(states, events, n - 1) + LostBy(states[n - 1], events[n - 1])
  }

  lemma {:induction false} RunLoses(states: seq<State>, events: seq<Event>, n: nat)
    requires Run(states, events) && n < |states|
    ensures Lost(states[n]) == LostInRun(states, events, n)
  {
    if n == 0 {
      assert CreatedIds([]) == {} && ClosedIds([]) == {};
    } else {
      RunLoses(states, events, n - 1);
      RunKeepsInvariant(states, events, n - 1);
      StepKeepsInvariant(states[n - 1], events[n - 1]);
    }
  }

  function CountCreated(rows: seq<AuditRow>): nat {
    if rows == [] then 0 else CountCreated(rows[..|rows| - 1]) + if rows[|rows| - 1].SessionCreate? then 1 else 0
  }

  function CountClosed(rows: seq<AuditRow>): nat {
    if rows == [] then 0 else CountClosed(rows[..|rows| - 1]) + if rows[|rows| - 1].SessionClose? then 1 else 0
  }

  ghost predicate DistinctRows(rows: seq<AuditRow>) {
    && (forall i, j :: 0 <= i < j < |rows| && rows[i].SessionCreate? && rows[j].SessionCreate? ==> rows[i].sid != rows[j].sid)
    && (forall i, j :: 0 <= i < j < |rows| && rows[i].SessionClose? && rows[j].SessionClose? ==> rows[i].sid != rows[j].sid)
  }

  lemma RowCounts(init: seq<AuditRow>, last: AuditRow)
    requires DistinctRows(init + [last])
    ensures |CreatedIds(init + [last])| == |CreatedIds(init)| + if last.SessionCreate? then 1 else 0
    ensures |ClosedIds(init + [last])| == |ClosedIds(init)| + if last.SessionClose? then 1 else 0
  {
    var rows := init + [last];
    AuditAppend(init, [last]);
    match last {
      case SessionCreate(user, sid, a) =>
        CreateRowIds(user, sid, a);
        forall i | 0 <= i < |init| && init[i].SessionCreate? ensures init[i].sid != sid {
          assert rows[i] == init[i] && rows[|init|] == last;
        }
      case SessionClose(sid, why) =>
        assert [last] == CloseRows([sid], why);
        CloseRowsIds([sid], why);
        assert SetOf([sid]) == {sid};
        forall i | 0 <= i < |init| && init[i].SessionClose? ensures init[i].sid != sid {
          assert rows[i] == init[i] && rows[|init|] == last;
        }
    }
  }

  lemma {:induction false} DistinctCounts(rows: seq<AuditRow>)
    requires DistinctRows(rows)
    ensures CountCreated(rows) == |CreatedIds(rows)| && CountClosed(rows) == |ClosedIds(rows)|
  {
    if rows == [] {
      assert CreatedIds(rows) == {} && ClosedIds(rows) == {};
    } else {
      var init := rows[..|rows| - 1];
      assert init + [rows[|rows| - 1]] == rows;
      DistinctCounts(init);
      RowCounts(init, rows[|rows| - 1]);
    }
  }

  lemma Parts<T>(all: set<T>, a: set<T>, b: set<T>)
    requires a <= all && b <= all && a !! b
    ensures |all| == |a| + |b| + |all - a - b|
  {
    var rest := all - a - b;
    assert all == (a + b) + rest;
    assert |a + b| == |a| + |b|;
    assert |(a + b) + rest| == |a + b| + |rest|;
  }

  lemma AccountedCounts(st: State)
    requires Accounted(st)
    ensures CountCreated(st.audits) == |st.sessions| + CountClosed(st.audits) + |Lost(st)|
  {
    assert DistinctRows(st.audits);
    DistinctCounts(st.audits);
    Parts(CreatedIds(st.audits), st.sessions.Keys, ClosedIds(st.audits));
  }

  /** Sessions created = live + closed with an audit row + dropped when their agent disconnected. */
  lemma SessionsAreConserved(states: seq<State>, events: seq<Event>, n: nat)
    requires Run(states, events) && n < |states|
    ensures CountCreated(states[n].audits)
         == |states[n].sessions| + CountClosed(states[n].audits) + |LostInRun(states, events, n)|
  {
    RunKeepsInvariant(states, events, n);
    RunLoses(states, events, n);
    AccountedCounts(states[n]);
  }

  lemma BrowserCleanupIsExact(st: State, b: BrowserId)
    requires Coherent(st)
    ensures OnBrowserClosed(st, b).sessions == st.sessions - SessionsSeenBy(st, b)
  {
    var gone := WithoutBrowser(st.(browsers := st.browsers - {b}), b, st.sessions.Keys);
    StruckBrowser(st, b);
    PickedLive(gone, Orphans(gone));
    forall s | s in st.sessions && s !in SessionsSeenBy(st, b) ensures gone.sessions[s] == st.sessions[s] {
      assert SameOwners(st, gone, s);
    }
  }

  lemma SweepIsExact(st: State, now: int)
    requires OrderOk(st)
    ensures OnSweep(st, now).sessions == st.sessions - Stale(st, now)
  {
    PickedLive(st, Stale(st, now));
  }

  /** Each cleanup takes exactly the sessions it is for and leaves every other mapping as it was. */
  lemma CleanupsAreExact(st: State, now: int, b: BrowserId, a: AgentId, ws: nat, owner: Option<int>)
    requires Coherent(st)
    ensures OnSweep(st, now).sessions == st.sessions - Stale(st, now)
    ensures OnBrowserClosed(st, b).sessions == st.sessions - SessionsSeenBy(st, b)
    ensures OnAgentClosed(st, a, ws, owner).sessions
         == st.sessions - if a in st.agents && st.agents[a].ws == ws then SessionsOf(st, a) else {}
  {
    SweepIsExact(st, now);
    BrowserCleanupIsExact(st, b);
  }

  // ---------------------------------------------------------------- who hears an agent

  /** Scanning every browser's subscriptions finds exactly the open browser of the mapping. */
  lemma ScanIsLookup(st: State, sid: SessionId)
    requires Coherent(st)
    ensures Subscribers(st.browsers, sid) == if sid in st.sessions then OpenOnly(st.browsers, st.sessions[sid].browserIds) else {}
  {
    forall b | b in st.browsers ensures sid in st.browsers[b].subscribed <==> sid in SessionsSeenBy(st, b) {}
  }

  ghost predicate Hears(st: State, a: AgentId, m: AgentMessage, b: BrowserId)
    requires b in st.browsers
  {
    MayReport(st, a, m) && b in st.sessions[m.sid].browserIds && (m.Created? || st.browsers[b].open)
  }

  /** Removing sessions writes to no browser. */
  lemma WrittenByMessage(st: State, a: AgentId, m: AgentMessage, now: int, owner: Option<int>, b: BrowserId)
    requires !m.Hello? && !m.Heartbeat? && b in st.browsers
    ensures b in OnAgentMessage(st, a, m, now, owner).browsers
    ensures OnAgentMessage(st, a, m, now, owner).browsers[b].sent
         == if MayReport(st, a, m) then Deliver(st.browsers, Recipients(st, m), Report(a, m))[b].sent else st.browsers[b].sent
  {
  }

  lemma RecipientsAreOwners(st: State, a: AgentId, m: AgentMessage, b: BrowserId)
    requires Coherent(st) && MayReport(st, a, m) && b in st.browsers
    ensures b in Recipients(st, m) <==> Hears(st, a, m, b)
  {
    ScanIsLookup(st, m.sid);
  }

  lemma HearsExactly(st: State, a: AgentId, m: AgentMessage, now: int, owner: Option<int>, b: BrowserId)
    requires Coherent(st) && !m.Hello? && !m.Heartbeat? && b in st.browsers
    ensures b in OnAgentMessage(st, a, m, now, owner).browsers
    ensures OnAgentMessage(st, a, m, now, owner).browsers[b].sent
         == st.browsers[b].sent + if Hears(st, a, m, b) then [Report(a, m)] else []
  {
    WrittenByMessage(st, a, m, now, owner, b);
    if MayReport(st, a, m) {
      RecipientsAreOwners(st, a, m, b);
    }
  }

  lemma SameBrowsers(st: State, a: AgentId, m: AgentMessage, now: int, owner: Option<int>)
    ensures OnAgentMessage(st, a, m, now, owner).browsers.Keys == st.browsers.Keys
  {
  }

  /** What each socket was sent is what `Hears` says. */
  ghost predicate SentExactly(st: State, after: map<BrowserId, BrowserConn>, a: AgentId, m: AgentMessage)
    requires !m.Hello? && !m.Heartbeat?
  {
    && after.Keys == st.browsers.Keys
    && forall b :: b in st.browsers ==>
         after[b].sent == st.browsers[b].sent + if Hears(st, a, m, b) then [Report(a, m)] else []
  }

  /** An agent's message about a session is written to the one browser of that session when the session
      is the agent's own, and to nobody otherwise; every other socket stays as it was. */
  lemma OnlyTheOwnerHears(st: State, a: AgentId, m: AgentMessage, now: int, owner: Option<int>)
    requires Coherent(st) && !m.Hello? && !m.Heartbeat?
    ensures SentExactly(st, OnAgentMessage(st, a, m, now, owner).browsers, a, m)
    ensures MayReport(st, a, m) ==> HasBrowser(st, m.sid)
  {
    SameBrowsers(st, a, m, now, owner);
    HearAll(st, OnAgentMessage(st, a, m, now, owner).browsers, a, m, now, owner);
    if MayReport(st, a, m) {
      assert m.sid in st.sessions;
    }
  }

  lemma HearAll(st: State, after: map<BrowserId, BrowserConn>, a: AgentId, m: AgentMessage, now: int, owner: Option<int>)
    requires Coherent(st) && !m.Hello? && !m.Heartbeat?
    requires after == OnAgentMessage(st, a, m, now, owner).browsers && after.Keys == st.browsers.Keys
    ensures SentExactly(st, after, a, m)
  {
    forall b | b in st.browsers
      ensures after[b].sent == st.browsers[b].sent + if Hears(st, a, m, b) then [Report(a, m)] else []
    {
      HearsExactly(st, a, m, now, owner, b);
    }
  }

  // ---------------------------------------------------------------- who commands an agent

  /** Being in the mapping is the same as being connected and subscribed. */
  lemma MayUseIsSubscribed(st: State, b: BrowserId, m: BrowserMessage)
    requires Coherent(st) && !m.Create?
    ensures MayUse(st, b, m) <==>
            b in st.browsers && m.sid in st.browsers[b].subscribed && st.sessions[m.sid].agentId == m.agentId
  {
    if b in st.browsers {
      assert m.sid in st.browsers[b].subscribed <==> m.sid in SessionsSeenBy(st, b);
    } else if m.sid in st.sessions {
      assert HasBrowser(st, m.sid);
    }
  }

  ghost predicate Commands(st: State, b: BrowserId, m: BrowserMessage, a: AgentId)
    requires !m.Create? && a in st.agents
  {
    && b in st.browsers && m.sid in st.browsers[b].subscribed && m.agentId == a
    && m.sid in SessionsOf(st, a) && st.agents[a].open
  }

  /** A browser's message about a session reaches the one agent that runs it, and only from the
      connected browser that owns the session; every other agent socket stays as it was. */
  lemma OnlyTheOwnerCommands(st: State, b: BrowserId, m: BrowserMessage, env: Env)
    requires Coherent(st) && !m.Create?
    ensures var after := OnBrowserMessage(st, b, m, env);
            && after.agents.Keys == st.agents.Keys
            && forall a :: a in st.agents ==>
                 after.agents[a].sent == st.agents[a].sent + if Commands(st, b, m, a) then [Forward(m)] else []
  {
    MayUseIsSubscribed(st, b, m);
  }
}
