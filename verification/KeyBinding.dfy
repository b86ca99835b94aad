/** Which key pair the browser binds to which session, and whether both ends derive the same keys.

    A key pair is represented by its 65-byte public key. The first part lets the relay assign sessions
    and route replies as the program does, between several browsers and several agents, some of which
    may say anything, with replies reordered, duplicated or lost, requests refused on either side and
    pending entries timing out. The second part lets the relay do anything except forge the agent's
    signature; in particular it is the relay that tells the browser the agent's identity key. */
module KeyBinding {
  import opened Prelude
  import opened Crypto
  import opened Encodings
  import opened Channel

  type ReqId = nat
  type AgentId = nat
  type Sid = Bytes

  datatype Signature = Signed(signer: Bytes, text: Bytes) | NotASignature(bits: nat)

  predicate Verifies(identityKey: Bytes, text: Bytes, sig: Signature) {
    sig == Signed(identityKey, text)
  }

  // ---------------------------------------------------------------- key derivation

  datatype SessionKeys = SessionKeys(keyB2A: Key, keyA2B: Key, hmacKey: Key)

  /** ECDH of one's own key pair with the peer's public key, then HKDF over the salt of both. */
  function DeriveSessionKeys(own: Bytes, peer: Bytes, browserPub: Bytes, agentPub: Bytes): SessionKeys {
    var secret, salt := {own, peer}, SaltInput(browserPub, agentPub);
    SessionKeys(Key(secret, salt, KeyB2A), Key(secret, salt, KeyA2B), Key(secret, salt, HmacKey))
  }

  function BrowserKeys(browserPub: Bytes, agentPub: Bytes): SessionKeys {
    DeriveSessionKeys(browserPub, agentPub, browserPub, agentPub)
  }

  function AgentKeys(browserPub: Bytes, agentPub: Bytes): SessionKeys {
    DeriveSessionKeys(agentPub, browserPub, browserPub, agentPub)
  }

  /** The two ends derive equal keys exactly when they mean the same pair of public keys. */
  lemma KeysAgreeExactly(b1: Bytes, a1: Bytes, b2: Bytes, a2: Bytes)
    requires PublicKey(b1) && PublicKey(a1) && PublicKey(b2) && PublicKey(a2)
    ensures BrowserKeys(b1, a1) == AgentKeys(b2, a2) <==> b1 == b2 && a1 == a2
  {
    SaltInputDetermines(b1, a1, b2, a2);
    if b1 == b2 && a1 == a2 {
      assert {b1, a1} == {a2, b2};
    } else {
      assert BrowserKeys(b1, a1).keyB2A.salt != AgentKeys(b2, a2).keyB2A.salt;
    }
  }

  // ---------------------------------------------------------------- one tab group of the browser

  datatype Exchange = Exchange(agentPub: Bytes, signature: Signature)
  datatype Tab = Tab(pending: map<ReqId, Bytes>, bound: map<Sid, Bytes>, exchange: map<Sid, Exchange>)

  /** pty.created as the browser gets it; `req` is None when the message carries no clientReqId. */
  datatype PtyCreated = PtyCreated(sid: Sid, exchange: Option<Exchange>, req: Option<ReqId>)

  function OnCreated(tab: Tab, m: PtyCreated): Tab {
    var tab1 := if m.req.Some? && m.req.value in tab.pending
                then tab.(pending := tab.pending - {m.req.value}, bound := tab.bound[m.sid := tab.pending[m.req.value]])
                else tab;
    if m.exchange.Some? then tab1.(exchange := tab1.exchange[m.sid := m.exchange.value]) else tab1
  }

  function DropPending(tab: Tab, req: ReqId): Tab {
    tab.(pending := tab.pending - {req})
  }

  function OnCloseTab(tab: Tab, sid: Sid): Tab {
    tab.(bound := tab.bound - {sid}, exchange := tab.exchange - {sid})
  }

  /** The terminal establishes end-to-end keys: it has a key pair and the agent's half, and the signature verifies. */
  predicate Establishes(identityKey: Bytes, tab: Tab, sid: Sid) {
    && sid in tab.bound && sid in tab.exchange && PublicKey(tab.exchange[sid].agentPub)
    && Verifies(identityKey, KeyExchangeData(tab.exchange[sid].agentPub, tab.bound[sid], sid), tab.exchange[sid].signature)
  }

  /** pty.created is looked at only by the tab group of the agent it comes from. */
  function OnCreatedFrom(tab: Tab, own: AgentId, from: AgentId, m: PtyCreated): Tab {
    if from == own then OnCreated(tab, m) else tab
  }

  datatype Mac = Mac(key: Key, text: Bytes)
  datatype TabMessage =
    | PtyCreate(shell: string, cwd: string, publicKey: Bytes, clientReqId: ReqId)
    | PtyClose(sid: Sid, hmac: Option<Mac>)

  class TerminalTabs {
    const agentId: AgentId
    var pendingKeyPairs: map<ReqId, Bytes>
    var sessionKeyPairs: map<Sid, Bytes>
    var agentKeyExchange: map<Sid, Exchange>
    var sessionHmacKeys: map<Sid, Key>
    var timers: seq<ReqId>
    var sent: seq<TabMessage>

    function Snapshot(): Tab
      reads this
    {
      Tab(pendingKeyPairs, sessionKeyPairs, agentKeyExchange)
    }

    constructor (agentId: AgentId)
      ensures this.agentId == agentId && Snapshot() == Tab(map[], map[], map[])
      ensures sessionHmacKeys == map[] && timers == [] && sent == []
    {
      this.agentId := agentId;
      pendingKeyPairs, sessionKeyPairs, agentKeyExchange := map[], map[], map[];
      sessionHmacKeys, timers, sent := map[], [], [];
    }

    method CreateSession(req: ReqId, publicKey: Bytes, shell: string, cwd: string)
      modifies this`pendingKeyPairs, this`timers, this`sent
      ensures Snapshot() == old(Snapshot()).(pending := old(pendingKeyPairs)[req := publicKey])
      ensures timers == old(timers) + [req] && sent == old(sent) + [PtyCreate(shell, cwd, publicKey, req)]
    {
      pendingKeyPairs := pendingKeyPairs[req := publicKey];
      timers := timers + [req];
      sent := sent + [PtyCreate(shell, cwd, publicKey, req)];
    }

    method OnPtyCreated(from: AgentId, m: PtyCreated)
      modifies this`pendingKeyPairs, this`sessionKeyPairs, this`agentKeyExchange
      ensures Snapshot() == OnCreatedFrom(old(Snapshot()), agentId, from, m)
      ensures var named := from == agentId && m.req.Some? && m.req.value in old(pendingKeyPairs);
              && pendingKeyPairs == (if named then old(pendingKeyPairs) - {m.req.value} else old(pendingKeyPairs))
              && sessionKeyPairs == (if named then old(sessionKeyPairs)[m.sid := old(pendingKeyPairs)[m.req.value]]
                                     else old(sessionKeyPairs))
      ensures agentKeyExchange == if from == agentId && m.exchange.Some? then old(agentKeyExchange)[m.sid := m.exchange.value]
                                  else old(agentKeyExchange)
    {
      if from != agentId {
        return;
      }
      if m.req.Some? && m.req.value in pendingKeyPairs {
        var pendingKP := pendingKeyPairs[m.req.value];
        pendingKeyPairs := pendingKeyPairs - {m.req.value};
        sessionKeyPairs := sessionKeyPairs[m.sid := pendingKP];
      }
      if m.exchange.Some? {
        agentKeyExchange := agentKeyExchange[m.sid := m.exchange.value];
      }
    }

    method OnCreateError(from: AgentId, req: Option<ReqId>)
      modifies this`pendingKeyPairs
      ensures Snapshot() == if from == agentId && req.Some? then DropPending(old(Snapshot()), req.value) else old(Snapshot())
      ensures pendingKeyPairs == if from == agentId && req.Some? then old(pendingKeyPairs) - {req.value} else old(pendingKeyPairs)
    {
      if from == agentId && req.Some? {
        pendingKeyPairs := pendingKeyPairs - {req.value};
      }
    }

    /** The 30s timer of a request. */
    method ForgetRequest(req: ReqId)
      modifies this`pendingKeyPairs
      ensures Snapshot() == DropPending(old(Snapshot()), req) && pendingKeyPairs == old(pendingKeyPairs) - {req}
    {
      pendingKeyPairs := pendingKeyPairs - {req};
    }

    method OnEstablished(sid: Sid, hmacKey: Key)
      modifies this`sessionHmacKeys
      ensures sessionHmacKeys == old(sessionHmacKeys)[sid := hmacKey]
    {
      sessionHmacKeys := sessionHmacKeys[sid := hmacKey];
    }

    /** `live` says whether the tab list has the session, not exited. */
    method HandleCloseTab(sid: Sid, live: bool)
      modifies this
      ensures Snapshot() == OnCloseTab(old(Snapshot()), sid) && sessionHmacKeys == old(sessionHmacKeys) - {sid}
      ensures pendingKeyPairs == old(pendingKeyPairs)
      ensures sessionKeyPairs == old(sessionKeyPairs) - {sid} && agentKeyExchange == old(agentKeyExchange) - {sid}
      ensures timers == old(timers)
      ensures sent == old(sent) + if !live then []
                                  else [PtyClose(sid, if sid in old(sessionHmacKeys)
                                                      then Some(Mac(old(sessionHmacKeys)[sid], CloseData(sid))) else None)]
    {
      if live {
        if sid in sessionHmacKeys {
          var hmac := Mac(sessionHmacKeys[sid], CloseData(sid));
          sent := sent + [PtyClose(sid, Some(hmac))];
        } else {
          sent := sent + [PtyClose(sid, None)];
        }
      }
      sessionKeyPairs := sessionKeyPairs - {sid};
      agentKeyExchange := agentKeyExchange - {sid};
      sessionHmacKeys := sessionHmacKeys - {sid};
    }
  }

  // ---------------------------------------------------------------- browsers, relay and agents together

  /** The tab group of one agent in one browser. */
  datatype TabId = TabId(browser: nat, agent: AgentId)
  datatype Request = Request(tab: TabId, req: ReqId, pub: Bytes)
  datatype Order = Order(agent: AgentId, sid: Sid, req: ReqId, pub: Bytes)
  datatype Handshake = Handshake(browserPub: Bytes, agentPub: Bytes)
  datatype Reply = Reply(agent: AgentId, sid: Sid, exchange: Exchange, req: ReqId)
  datatype Route = Route(browser: nat, agent: AgentId)

  /** `honest` are the agents that keep to the protocol; the others may send any pty.created.
      `asked` and `madeFor` are history: who asked under a request id with which key, and which
      request a session id was made for. `toBrowser` keeps what was routed, so it may be delivered
      late, in any order, repeatedly or never. */
  datatype System = System(identityKeys: map<AgentId, Bytes>, honest: set<AgentId>, tabs: map<TabId, Tab>,
                           toRelay: set<Request>, toAgent: set<Order>, mapping: map<Sid, Route>,
                           agent: map<Sid, Handshake>, toRelayBack: set<Reply>, toBrowser: set<(nat, Reply)>,
                           asked: map<ReqId, Request>, madeFor: map<Sid, ReqId>)

  function SystemInit(identityKeys: map<AgentId, Bytes>, honest: set<AgentId>, tabs: set<TabId>): System {
    System(identityKeys, honest, map t | t in tabs :: Tab(map[], map[], map[]), {}, {}, map[], map[], {}, {}, map[], map[])
  }

  datatype Action =
    | CreateSession(r: Request)
    | Timeout(tab: TabId, req: ReqId)         // also a pty.create.error naming the request
    | RelayAccepts(r: Request, sid: Sid)
    | RelayRefuses(r: Request)
    | AgentAccepts(o: Order, agentPub: Bytes)
    | AgentRefuses(o: Order)
    | AgentSays(reply: Reply)                 // an agent that does not keep to the protocol
    | RelayRoutes(reply: Reply)
    | SessionEnds(sid: Sid)
    | BrowserGets(tab: TabId, reply: Reply)
    | CloseTab(tab: TabId, sid: Sid)

  function SignedReply(st: System, o: Order, agentPub: Bytes): Reply
    requires o.agent in st.identityKeys
  {
    Reply(o.agent, o.sid, Exchange(agentPub, Signed(st.identityKeys[o.agent], KeyExchangeData(agentPub, o.pub, o.sid))), o.req)
  }

  /** Ids and keys are fresh; everything else happens to what is under way. */
  ghost predicate Enabled(st: System, a: Action) {
    match a
    case CreateSession(r) => r.tab in st.tabs && r.req !in st.asked && PublicKey(r.pub)
    case Timeout(t, req) => t in st.tabs
    case RelayAccepts(r, sid) => r in st.toRelay && sid !in st.madeFor
    case RelayRefuses(r) => r in st.toRelay
    case AgentAccepts(o, agentPub) =>
      o in st.toAgent && o.agent in st.identityKeys && PublicKey(agentPub)
      && forall s :: s in st.agent ==> st.agent[s].agentPub != agentPub
    case AgentRefuses(o) => o in st.toAgent
    case AgentSays(reply) => reply.agent !in st.honest
    case RelayRoutes(reply) => reply in st.toRelayBack
    case SessionEnds(sid) => true
    case BrowserGets(t, reply) => t in st.tabs && (t.browser, reply) in st.toBrowser
    case CloseTab(t, sid) => t in st.tabs
  }

  function Next(st: System, a: Action): System
    requires Enabled(st, a)
  {
    match a
    case CreateSession(r) =>
      st.(tabs := st.tabs[r.tab := st.tabs[r.tab].(pending := st.tabs[r.tab].pending[r.req := r.pub])],
          toRelay := st.toRelay + {r}, asked := st.asked[r.req := r])
    case Timeout(t, req) => st.(tabs := st.tabs[t := DropPending(st.tabs[t], req)])
    case RelayAccepts(r, sid) =>
      st.(toRelay := st.toRelay - {r}, mapping := st.mapping[sid := Route(r.tab.browser, r.tab.agent)],
          madeFor := st.madeFor[sid := r.req], toAgent := st.toAgent + {Order(r.tab.agent, sid, r.req, r.pub)})
    case RelayRefuses(r) => st.(toRelay := st.toRelay - {r})
    case AgentAccepts(o, agentPub) =>
      st.(toAgent := st.toAgent - {o}, agent := st.agent[o.sid := Handshake(o.pub, agentPub)],
          toRelayBack := st.toRelayBack + {SignedReply(st, o, agentPub)})
    case AgentRefuses(o) => st.(toAgent := st.toAgent - {o}, mapping := st.mapping - {o.sid})
    case AgentSays(reply) => st.(toRelayBack := st.toRelayBack + {reply})
    case RelayRoutes(reply) =>
      if reply.sid in st.mapping && st.mapping[reply.sid].agent == reply.agent
      then st.(toBrowser := st.toBrowser + {(st.mapping[reply.sid].browser, reply)})
      else st
    case SessionEnds(sid) => st.(mapping := st.mapping - {sid})
    case BrowserGets(t, reply) => st.(tabs := st.tabs[t := OnCreatedFrom(st.tabs[t], t.agent, reply.agent, Created(reply))])
    case CloseTab(t, sid) => st.(tabs := st.tabs[t := OnCloseTab(st.tabs[t], sid)])
  }

  function Created(reply: Reply): PtyCreated {
    PtyCreated(reply.sid, Some(reply.exchange), Some(reply.req))
  }

  ghost predicate SystemRun(states: seq<System>, actions: seq<Action>) {
    && |states| == |actions| + 1 && (exists keys, honest, tabs :: states[0] == SystemInit(keys, honest, tabs))
    && forall i :: 0 <= i < |actions| ==> Enabled(states[i], actions[i]) && states[i + 1] == Next(states[i], actions[i])
  }

  /** The handshake for `sid` used the key its request came with, and was the asked agent's. */
  ghost predicate HandshakeOk(st: System, sid: Sid)
    requires sid in st.agent
  {
    && sid in st.madeFor && st.madeFor[sid] in st.asked
    && st.asked[st.madeFor[sid]].tab.agent in st.identityKeys
    && st.agent[sid].browserPub == st.asked[st.madeFor[sid]].pub
    && PublicKey(st.agent[sid].browserPub) && PublicKey(st.agent[sid].agentPub)
  }

  /** The reply is the one the session's own agent gave to the session's own request. */
  ghost predicate ReplyOk(st: System, r: Reply) {
    && r.sid in st.agent && HandshakeOk(st, r.sid) && st.madeFor[r.sid] == r.req
    && r.agent == st.asked[r.req].tab.agent
    && r.exchange == Exchange(st.agent[r.sid].agentPub,
                              Signed(st.identityKeys[r.agent],
                                     KeyExchangeData(st.agent[r.sid].agentPub, st.agent[r.sid].browserPub, r.sid)))
  }

  /** What comes from an honest agent is such a reply. */
  ghost predicate Trusted(st: System, r: Reply) {
    r.agent in st.honest ==> ReplyOk(st, r)
  }

  ghost predicate OrderOk(st: System, o: Order) {
    && o.sid in st.madeFor && st.madeFor[o.sid] == o.req && o.req in st.asked && o.sid !in st.agent
    && st.asked[o.req].pub == o.pub && st.asked[o.req].tab.agent == o.agent
  }

  ghost predicate TabOk(st: System, own: AgentId, tab: Tab) {
    && (forall req :: req in tab.pending ==> req in st.asked && st.asked[req].pub == tab.pending[req])
    && (forall sid :: sid in tab.bound ==> sid in st.agent && st.agent[sid].browserPub == tab.bound[sid])
    && (forall sid :: sid in tab.exchange ==> sid in st.madeFor && ReplyOk(st, Reply(own, sid, tab.exchange[sid], st.madeFor[sid])))
  }

  ghost predicate BindingInv(st: System) {
    && (forall req :: req in st.asked ==> PublicKey(st.asked[req].pub))
    && (forall r :: r in st.toRelay ==> r.req in st.asked && st.asked[r.req] == r)
    && (forall o :: o in st.toAgent ==> OrderOk(st, o))
    && (forall sid :: sid in st.agent ==> HandshakeOk(st, sid))
    && (forall r :: r in st.toRelayBack ==> Trusted(st, r))
    && (forall p :: p in st.toBrowser ==> Trusted(st, p.1))
    && (forall t :: t in st.tabs && t.agent in st.honest ==> TabOk(st, t.agent, st.tabs[t]))
  }

  /** Histories only grow: requests, session ids and handshakes stay what they were. */
  ghost predicate Grows(st: System, after: System) {
    && after.identityKeys == st.identityKeys && after.honest == st.honest
    && (forall req :: req in st.asked ==> req in after.asked && after.asked[req] == st.asked[req])
    && (forall sid :: sid in st.madeFor ==> sid in after.madeFor && after.madeFor[sid] == st.madeFor[sid])
    && (forall sid :: sid in st.agent ==> sid in after.agent && after.agent[sid] == st.agent[sid])
  }

  lemma HandshakeStays(st: System, after: System, sid: Sid)
    requires Grows(st, after) && sid in st.agent && HandshakeOk(st, sid)
    ensures HandshakeOk(after, sid)
  {
  }

  lemma ReplyStays(st: System, after: System, r: Reply)
    requires Grows(st, after) && ReplyOk(st, r)
    ensures ReplyOk(after, r)
  {
  }

  lemma TabStays(st: System, after: System, own: AgentId, tab: Tab)
    requires Grows(st, after) && TabOk(st, own, tab)
    ensures TabOk(after, own, tab)
  {
    forall sid | sid in tab.exchange
      ensures sid in after.madeFor && ReplyOk(after, Reply(own, sid, tab.exchange[sid], after.madeFor[sid]))
    {
      ReplyStays(st, after, Reply(own, sid, tab.exchange[sid], st.madeFor[sid]));
    }
  }

  lemma NextGrows(st: System, a: Action)
    requires BindingInv(st) && Enabled(st, a)
    ensures Grows(st, Next(st, a))
  {
    if a.AgentAccepts? {
      assert OrderOk(st, a.o);
    }
  }

  lemma OrdersKept(st: System, a: Action)
    requires BindingInv(st) && Enabled(st, a)
    ensures forall o :: o in Next(st, a).toAgent ==> OrderOk(Next(st, a), o)
    ensures forall r :: r in Next(st, a).toRelay ==> r.req in Next(st, a).asked && Next(st, a).asked[r.req] == r
  {
    var after := Next(st, a);
    forall sid | sid in st.agent ensures sid in st.madeFor {
      assert HandshakeOk(st, sid);
    }
    forall o | o in after.toAgent ensures OrderOk(after, o) {
      if !a.RelayAccepts? || o != Order(a.r.tab.agent, a.sid, a.r.req, a.r.pub) {
        assert OrderOk(st, o);
        if a.AgentAccepts? {
          assert OrderOk(st, a.o);
        }
      }
    }
  }

  lemma HandshakesKept(st: System, a: Action)
    requires BindingInv(st) && Enabled(st, a)
    ensures forall sid :: sid in Next(st, a).agent ==> HandshakeOk(Next(st, a), sid)
  {
    var after := Next(st, a);
    NextGrows(st, a);
    forall sid | sid in after.agent ensures HandshakeOk(after, sid) {
      if sid in st.agent {
        HandshakeStays(st, after, sid);
      } else {
        assert OrderOk(st, a.o);
      }
    }
  }

  lemma AcceptedIsOk(st: System, o: Order, agentPub: Bytes)
    requires BindingInv(st) && Enabled(st, AgentAccepts(o, agentPub))
    ensures ReplyOk(Next(st, AgentAccepts(o, agentPub)), SignedReply(st, o, agentPub))
  {
    assert OrderOk(st, o);
    HandshakesKept(st, AgentAccepts(o, agentPub));
  }

  lemma RepliesKept(st: System, a: Action)
    requires BindingInv(st) && Enabled(st, a)
    ensures forall r :: r in Next(st, a).toRelayBack ==> Trusted(Next(st, a), r)
    ensures forall p :: p in Next(st, a).toBrowser ==> Trusted(Next(st, a), p.1)
  {
    var after := Next(st, a);
    NextGrows(st, a);
    forall r | ReplyOk(st, r) ensures ReplyOk(after, r) { ReplyStays(st, after, r); }
    if a.AgentAccepts? {
      AcceptedIsOk(st, a.o, a.agentPub);
    }
    forall r | r in after.toRelayBack ensures Trusted(after, r) {
      if r in st.toRelayBack { assert Trusted(st, r); }
    }
    forall p | p in after.toBrowser ensures Trusted(after, p.1) {
      if p in st.toBrowser { assert Trusted(st, p.1); } else { assert Trusted(st, a.reply); }
    }
  }

  /** The heart of it: a reply finds, under its request id, the very key pair the agent answered to. */
  lemma CreatedKeepsTab(st: System, own: AgentId, tab: Tab, r: Reply)
    requires TabOk(st, own, tab) && r.agent == own && ReplyOk(st, r)
    ensures TabOk(st, own, OnCreated(tab, Created(r)))
  {
    var after := OnCreated(tab, Created(r));
    forall sid | sid in after.exchange
      ensures sid in st.madeFor && ReplyOk(st, Reply(own, sid, after.exchange[sid], st.madeFor[sid]))
    {
      if sid == r.sid {
        assert Reply(own, sid, after.exchange[sid], st.madeFor[sid]) == r;
      }
    }
  }

  /** One tab group, before and after an action that is not its own getting a reply. */
  lemma TabKept(st: System, a: Action, t: TabId)
    requires BindingInv(st) && Enabled(st, a) && t in st.tabs && t.agent in st.honest && !a.BrowserGets?
    ensures TabOk(Next(st, a), t.agent, Next(st, a).tabs[t])
  {
    NextGrows(st, a);
    assert TabOk(st, t.agent, st.tabs[t]);
    TabStays(st, Next(st, a), t.agent, st.tabs[t]);
  }

  lemma TabGets(st: System, t: TabId, reply: Reply)
    requires BindingInv(st) && Enabled(st, BrowserGets(t, reply)) && t.agent in st.honest
    ensures TabOk(Next(st, BrowserGets(t, reply)), t.agent, Next(st, BrowserGets(t, reply)).tabs[t])
  {
    var after := Next(st, BrowserGets(t, reply));
    NextGrows(st, BrowserGets(t, reply));
    assert Trusted(st, (t.browser, reply).1) && TabOk(st, t.agent, st.tabs[t]);
    if reply.agent == t.agent {
      CreatedKeepsTab(st, t.agent, st.tabs[t], reply);
    }
    TabStays(st, after, t.agent, after.tabs[t]);
  }

  lemma TabsKept(st: System, a: Action)
    requires BindingInv(st) && Enabled(st, a)
    ensures forall t :: t in Next(st, a).tabs && t.agent in st.honest ==> TabOk(Next(st, a), t.agent, Next(st, a).tabs[t])
  {
    var after := Next(st, a);
    NextGrows(st, a);
    forall t | t in after.tabs && t.agent in st.honest ensures TabOk(after, t.agent, after.tabs[t]) {
      if !a.BrowserGets? {
        TabKept(st, a, t);
      } else if t == a.tab {
        TabGets(st, t, a.reply);
      } else {
        assert TabOk(st, t.agent, st.tabs[t]);
        TabStays(st, after, t.agent, st.tabs[t]);
      }
    }
  }

  lemma StepKeepsBinding(st: System, a: Action)
    requires BindingInv(st) && Enabled(st, a)
    ensures BindingInv(Next(st, a)) && Next(st, a).honest == st.honest
  {
    NextGrows(st, a);
    OrdersKept(st, a);
    HandshakesKept(st, a);
    RepliesKept(st, a);
    TabsKept(st, a);
  }

  lemma {:induction false} RunKeepsBinding(states: seq<System>, actions: seq<Action>, n: nat)
    requires SystemRun(states, actions) && n < |states|
    ensures BindingInv(states[n])
  {
    if n > 0 {
      RunKeepsBinding(states, actions, n - 1);
      StepKeepsBinding(states[n - 1], actions[n - 1]);
    }
  }

  /** In every run, in the tab group of an honest agent, whatever the other agents say: a key pair bound
      to a session is the one whose public key the agent used for that session; once the agent's half
      is there too, the signature verifies and both ends hold the same B2A, A2B and HMAC keys. */
  lemma BoundKeysAgree(states: seq<System>, actions: seq<Action>, n: nat, t: TabId, sid: Sid)
    requires SystemRun(states, actions) && n < |states| && t in states[n].tabs && t.agent in states[n].honest
    requires sid in states[n].tabs[t].bound
    ensures var st, tab := states[n], states[n].tabs[t];
            && sid in st.agent && st.agent[sid].browserPub == tab.bound[sid]
            && (sid in tab.exchange ==>
                  t.agent in st.identityKeys && Establishes(st.identityKeys[t.agent], tab, sid)
                  && BrowserKeys(tab.bound[sid], tab.exchange[sid].agentPub)
                     == AgentKeys(st.agent[sid].browserPub, st.agent[sid].agentPub))
  {
    RunKeepsBinding(states, actions, n);
    var st, tab := states[n], states[n].tabs[t];
    assert TabOk(st, t.agent, tab);
    if sid in tab.exchange {
      assert ReplyOk(st, Reply(t.agent, sid, tab.exchange[sid], st.madeFor[sid]));
      KeysAgreeExactly(tab.bound[sid], tab.exchange[sid].agentPub, st.agent[sid].browserPub, st.agent[sid].agentPub);
    }
  }

  // ---------------------------------------------------------------- one tab group over whole runs

  /** A reply of its own agent reaches the tab group. */
  predicate GetsReply(a: Action, t: TabId, sid: Sid, req: ReqId) {
    a.BrowserGets? && a.tab == t && a.reply.agent == t.agent && a.reply.sid == sid && a.reply.req == req
  }

  /** The action takes `req` out of what is pending in the tab group: it times out or fails, or is answered. */
  predicate Settles(a: Action, t: TabId, req: ReqId) {
    (a.Timeout? && a.tab == t && a.req == req) || (a.BrowserGets? && GetsReply(a, t, a.reply.sid, req))
  }

  /** Requests, as the tab group keeps them: from their creation until they are settled. */
  lemma PendingFollows(st: System, a: Action, t: TabId, req: ReqId)
    requires Enabled(st, a) && t in st.tabs
    ensures t in Next(st, a).tabs
    ensures var was, now := st.tabs[t].pending, Next(st, a).tabs[t].pending;
            var made := a.CreateSession? && a.r.tab == t && a.r.req == req;
            && (req in now <==> (req in was && !Settles(a, t, req)) || made)
            && (made ==> now[req] == a.r.pub) && (req in now && !made ==> now[req] == was[req])
  {
  }

  /** Key pairs, as the tab group keeps them: bound by a reply that names a pending request, to that
      request's pair, until the tab is closed. */
  lemma BoundFollows(st: System, a: Action, t: TabId, sid: Sid)
    requires Enabled(st, a) && t in st.tabs
    ensures t in Next(st, a).tabs
    ensures var tab, now := st.tabs[t], Next(st, a).tabs[t].bound;
            var binds := a.BrowserGets? && GetsReply(a, t, sid, a.reply.req) && a.reply.req in tab.pending;
            && (sid in now <==> binds || (sid in tab.bound && !(a.CloseTab? && a.tab == t && a.sid == sid)))
            && (binds ==> now[sid] == tab.pending[a.reply.req]) && (sid in now && !binds ==> now[sid] == tab.bound[sid])
  {
  }

  lemma AskedStays(st: System, a: Action, req: ReqId)
    requires Enabled(st, a) && req in st.asked
    ensures req in Next(st, a).asked
  {
  }

  /** A request that was asked for and is no longer pending in a tab group. */
  ghost predicate Over(st: System, t: TabId, req: ReqId) {
    t in st.tabs && req in st.asked && req !in st.tabs[t].pending
  }

  lemma StaysOver(st: System, a: Action, t: TabId, req: ReqId)
    requires Enabled(st, a) && Over(st, t, req)
    ensures Over(Next(st, a), t, req)
  {
    PendingFollows(st, a, t, req);
    AskedStays(st, a, req);
  }

  /** In every run, once a request has timed out or failed it is not pending in that tab group in any
      later state, and a reply that names it later binds nothing. Every other pending request, and every
      other tab group, is left alone. */
  lemma {:induction false} ForgottenStays(states: seq<System>, actions: seq<Action>, i: nat, n: nat, t: TabId, req: ReqId)
    requires SystemRun(states, actions) && i < n <= |actions| && actions[i] == Timeout(t, req) && req in states[i].asked
    ensures Over(states[n], t, req)
    ensures n < |actions| && actions[n].BrowserGets? && actions[n].tab == t && actions[n].reply.req == req
            ==> states[n + 1].tabs[t].bound == states[n].tabs[t].bound
    ensures states[i + 1].tabs == states[i].tabs[t := states[i].tabs[t].(pending := states[i].tabs[t].pending - {req})]
    decreases n
  {
    if n == i + 1 {
      PendingFollows(states[i], actions[i], t, req);
    } else {
      ForgottenStays(states, actions, i, n - 1, t, req);
      StaysOver(states[n - 1], actions[n - 1], t, req);
    }
    if n < |actions| {
      BindsNothing(states[n], actions[n], t, req);
    }
  }

  lemma BindsNothing(st: System, a: Action, t: TabId, req: ReqId)
    requires Enabled(st, a) && Over(st, t, req)
    ensures a.BrowserGets? && a.tab == t && a.reply.req == req ==> Next(st, a).tabs[t].bound == st.tabs[t].bound
  {
  }

  ghost predicate AgentKeysFresh(st: System) {
    forall s1, s2 :: s1 in st.agent && s2 in st.agent && s1 != s2 ==> st.agent[s1].agentPub != st.agent[s2].agentPub
  }

  lemma StepKeepsFresh(st: System, a: Action)
    requires AgentKeysFresh(st) && Enabled(st, a)
    ensures AgentKeysFresh(Next(st, a))
  {
  }

  lemma {:induction false} RunKeepsFresh(states: seq<System>, actions: seq<Action>, n: nat)
    requires SystemRun(states, actions) && n < |states|
    ensures AgentKeysFresh(states[n])
  {
    if n > 0 {
      RunKeepsFresh(states, actions, n - 1);
      StepKeepsFresh(states[n - 1], actions[n - 1]);
    }
  }

  /** No two sessions of the agent share a key, in either direction. */
  lemma SessionsNeverShareKeys(states: seq<System>, actions: seq<Action>, n: nat, s1: Sid, s2: Sid)
    requires SystemRun(states, actions) && n < |states| && s1 in states[n].agent && s2 in states[n].agent && s1 != s2
    ensures var k1 := AgentKeys(states[n].agent[s1].browserPub, states[n].agent[s1].agentPub);
            var k2 := AgentKeys(states[n].agent[s2].browserPub, states[n].agent[s2].agentPub);
            {k1.keyB2A, k1.keyA2B, k1.hmacKey} !! {k2.keyB2A, k2.keyA2B, k2.hmacKey}
  {
    RunKeepsFresh(states, actions, n);
    RunKeepsBinding(states, actions, n);
    var h1, h2 := states[n].agent[s1], states[n].agent[s2];
    assert HandshakeOk(states[n], s1) && HandshakeOk(states[n], s2);
    SaltInputDetermines(h1.browserPub, h1.agentPub, h2.browserPub, h2.agentPub);
  }

  // ---------------------------------------------------------------- any relay at all

  /** The keys a terminal established: the identity key the signature was checked with, and the pair. */
  datatype Held = Held(checkedWith: Bytes, pair: Handshake)

  /** `shown` is the identity key the browser has for the agent, `known` the one it stored on first use,
      `looked` the announced keys, `looking` those whose comparison still waits for the fingerprint, each
      with the stored key it read, and `warned` whether a mismatch was ever reported. `done` is every
      handshake the agent ever performed. */
  datatype Open = Open(agentKey: Bytes, shown: Option<Bytes>, known: Option<Bytes>, looked: set<Bytes>,
                       looking: map<Bytes, Option<Bytes>>, warned: bool, tab: Tab,
                       held: map<Sid, Held>, done: set<(Sid, Handshake)>)

  function OpenInit(agentKey: Bytes, known: Option<Bytes>): Open {
    Open(agentKey, None, known, {}, map[], false, Tab(map[], map[], map[]), map[], {})
  }

  datatype OpenAction =
    | Ask(req: ReqId, pub: Bytes)
    | Forget(req: ReqId)
    | AgentAnswers(sid: Sid, browserPub: Bytes, agentPub: Bytes)
    | Delivered(m: PtyCreated)
    | Closed(sid: Sid)
    | Listed(key: Bytes)          // the agent list of the HTTP interface
    | Online(key: Bytes, listed: bool)  // agent.online, for an agent that is in the list or not
    | Compared(key: Bytes)        // the fingerprint of an announced key is ready
    | AcceptKey(key: Bytes)       // the user accepts a changed key
    | Mounted(sid: Sid)           // a terminal runs the key exchange

  /** The agent signed this text for one of its handshakes. */
  ghost predicate SignedByAgent(st: Open, text: Bytes) {
    exists sid: Sid, h: Handshake :: (sid, h) in st.done && text == KeyExchangeData(h.agentPub, h.browserPub, sid)
  }

  /** Whatever is delivered, a valid signature of the agent on it was made by the agent. The identity
      keys the relay names lie in `named`. */
  ghost predicate OpenEnabled(st: Open, a: OpenAction, named: iset<Bytes>) {
    match a
    case Ask(req, pub) => PublicKey(pub)
    case AgentAnswers(sid, browserPub, agentPub) => PublicKey(browserPub) && PublicKey(agentPub)
    case Delivered(m) =>
      m.exchange.Some? && m.exchange.value.signature.Signed? && m.exchange.value.signature.signer == st.agentKey
      ==> SignedByAgent(st, m.exchange.value.signature.text)
    case Listed(key) => key in named
    case Online(key, _) => key in named
    case Compared(key) => key in st.looking
    case _ => true
  }

  /** Trust on first use, once for each announced key: the stored key is read now and compared later. */
  function Looked(st: Open, key: Bytes): Open {
    if key in st.looked then st else st.(looked := st.looked + {key}, looking := st.looking[key := st.known])
  }

  /** A first or equal key is stored and a different one reported. Nothing else looks at the outcome. */
  function AfterComparing(st: Open, key: Bytes): Open
    requires key in st.looking
  {
    var read, rest := st.looking[key], st.(looking := st.looking - {key});
    if read.None? || read.value == key then rest.(known := Some(key)) else rest.(warned := true)
  }

  function OpenNext(st: Open, a: OpenAction): Open {
    match a
    case Ask(req, pub) => st.(tab := st.tab.(pending := st.tab.pending[req := pub]))
    case Forget(req) => st.(tab := DropPending(st.tab, req))
    case AgentAnswers(sid, browserPub, agentPub) => st.(done := st.done + {(sid, Handshake(browserPub, agentPub))})
    case Delivered(m) => st.(tab := OnCreated(st.tab, m))
    case Closed(sid) => st.(tab := OnCloseTab(st.tab, sid), held := st.held - {sid})
    case Listed(key) => st.(shown := Some(key))
    case Online(key, listed) => Looked(if listed then st.(shown := Some(key)) else st, key)
    case Compared(key) => if key in st.looking then AfterComparing(st, key) else st
    case AcceptKey(key) => st.(known := Some(key))
    case Mounted(sid) =>
      if st.shown.Some? && Establishes(st.shown.value, st.tab, sid)
      then st.(held := st.held[sid := Held(st.shown.value, Handshake(st.tab.bound[sid], st.tab.exchange[sid].agentPub))])
      else st
  }

  ghost predicate OpenRun(agentKey: Bytes, named: iset<Bytes>, states: seq<Open>, actions: seq<OpenAction>) {
    && |states| == |actions| + 1 && (exists known :: states[0] == OpenInit(agentKey, known))
    && forall i :: 0 <= i < |actions| ==> OpenEnabled(states[i], actions[i], named) && states[i + 1] == OpenNext(states[i], actions[i])
  }

  /** The agent performed this very handshake for this very session, and so holds the same three keys. */
  ghost predicate Agreed(st: Open, sid: Sid)
    requires sid in st.held
  {
    var h := st.held[sid].pair;
    (sid, h) in st.done && BrowserKeys(h.browserPub, h.agentPub) == AgentKeys(h.browserPub, h.agentPub)
  }

  ghost predicate TabKeysOk(st: Open) {
    && (forall req :: req in st.tab.pending ==> PublicKey(st.tab.pending[req]))
    && (forall sid :: sid in st.tab.bound ==> PublicKey(st.tab.bound[sid]))
    && (forall p :: p in st.done ==> PublicKey(p.1.browserPub) && PublicKey(p.1.agentPub))
  }

  ghost predicate SignaturesOk(st: Open) {
    forall sid :: sid in st.tab.exchange && st.tab.exchange[sid].signature.Signed? && st.tab.exchange[sid].signature.signer == st.agentKey
      ==> SignedByAgent(st, st.tab.exchange[sid].signature.text)
  }

  /** What was checked with the agent's own key was agreed. */
  ghost predicate HeldOk(st: Open) {
    forall sid :: sid in st.held && st.held[sid].checkedWith == st.agentKey ==> Agreed(st, sid)
  }

  ghost predicate OpenInv(st: Open) {
    TabKeysOk(st) && SignaturesOk(st) && HeldOk(st)
  }

  lemma TabKeysStep(st: Open, a: OpenAction, named: iset<Bytes>)
    requires TabKeysOk(st) && OpenEnabled(st, a, named)
    ensures TabKeysOk(OpenNext(st, a))
  {
  }

  lemma SignedStays(st: Open, after: Open, text: Bytes)
    requires SignedByAgent(st, text) && st.done <= after.done
    ensures SignedByAgent(after, text)
  {
    var sid: Sid, h: Handshake :| (sid, h) in st.done && text == KeyExchangeData(h.agentPub, h.browserPub, sid);
    assert (sid, h) in after.done;
  }

  lemma SignaturesStep(st: Open, a: OpenAction, named: iset<Bytes>)
    requires SignaturesOk(st) && OpenEnabled(st, a, named)
    ensures SignaturesOk(OpenNext(st, a)) && OpenNext(st, a).agentKey == st.agentKey && st.done <= OpenNext(st, a).done
  {
    var after := OpenNext(st, a);
    forall text | SignedByAgent(st, text) ensures SignedByAgent(after, text) {
      SignedStays(st, after, text);
    }
  }

  /** A terminal that checks with the agent's own key establishes only what the agent agreed to. */
  lemma EstablishedIsSigned(st: Open, sid: Sid)
    requires TabKeysOk(st) && SignaturesOk(st) && Establishes(st.agentKey, st.tab, sid)
    ensures (sid, Handshake(st.tab.bound[sid], st.tab.exchange[sid].agentPub)) in st.done
  {
    var text := KeyExchangeData(st.tab.exchange[sid].agentPub, st.tab.bound[sid], sid);
    assert SignedByAgent(st, text);
    var s: Sid, h: Handshake :| (s, h) in st.done && text == KeyExchangeData(h.agentPub, h.browserPub, s);
    assert PublicKey((s, h).1.browserPub) && PublicKey((s, h).1.agentPub);
    KeyExchangeDataDetermines(st.tab.exchange[sid].agentPub, st.tab.bound[sid], sid, h.agentPub, h.browserPub, s);
  }

  lemma SamePairAgrees(h: Handshake)
    requires PublicKey(h.browserPub) && PublicKey(h.agentPub)
    ensures BrowserKeys(h.browserPub, h.agentPub) == AgentKeys(h.browserPub, h.agentPub)
  {
    KeysAgreeExactly(h.browserPub, h.agentPub, h.browserPub, h.agentPub);
  }

  lemma MountStep(st: Open, sid: Sid)
    requires OpenInv(st)
    ensures HeldOk(OpenNext(st, Mounted(sid)))
  {
    var after := OpenNext(st, Mounted(sid));
    forall s | s in after.held && after.held[s].checkedWith == after.agentKey ensures Agreed(after, s) {
      if s == sid && st.shown == Some(st.agentKey) && Establishes(st.agentKey, st.tab, sid) {
        EstablishedIsSigned(st, sid);
        SamePairAgrees(after.held[s].pair);
      } else {
        assert Agreed(st, s);
      }
    }
  }

  lemma HeldStep(st: Open, a: OpenAction)
    requires HeldOk(st) && !a.Mounted?
    ensures HeldOk(OpenNext(st, a))
  {
    var after := OpenNext(st, a);
    forall s | s in after.held && after.held[s].checkedWith == after.agentKey ensures Agreed(after, s) {
      assert Agreed(st, s);
    }
  }

  lemma OpenStep(st: Open, a: OpenAction, named: iset<Bytes>)
    requires OpenInv(st) && OpenEnabled(st, a, named)
    ensures OpenInv(OpenNext(st, a)) && OpenNext(st, a).agentKey == st.agentKey
  {
    TabKeysStep(st, a, named);
    SignaturesStep(st, a, named);
    if a.Mounted? {
      MountStep(st, a.sid);
    } else {
      HeldStep(st, a);
    }
  }

  lemma {:induction false} OpenRunInv(agentKey: Bytes, named: iset<Bytes>, states: seq<Open>, actions: seq<OpenAction>, n: nat)
    requires OpenRun(agentKey, named, states, actions) && n < |states|
    ensures OpenInv(states[n]) && states[n].agentKey == agentKey
  {
    if n > 0 {
      OpenRunInv(agentKey, named, states, actions, n - 1);
      OpenStep(states[n - 1], actions[n - 1], named);
    }
  }

  /** Whatever the relay does: keys established with the agent's own identity key are keys the agent
      agreed to, for exactly that session and that browser key. */
  lemma EstablishedMeansAgentAgreed(agentKey: Bytes, named: iset<Bytes>, states: seq<Open>, actions: seq<OpenAction>, n: nat, sid: Sid)
    requires OpenRun(agentKey, named, states, actions) && n < |states|
    requires sid in states[n].held && states[n].held[sid].checkedWith == agentKey
    ensures Agreed(states[n], sid)
  {
    OpenRunInv(agentKey, named, states, actions, n);
  }

  /** No run in which the relay names only these identity keys establishes anything the agent did not agree to. */
  ghost predicate Safe(agentKey: Bytes, named: iset<Bytes>) {
    forall states: seq<Open>, actions: seq<OpenAction>, n: nat, sid: Sid ::
      OpenRun(agentKey, named, states, actions) && n < |states| && sid in states[n].held ==> Agreed(states[n], sid)
  }

  ghost predicate KeysAreNamed(st: Open, named: iset<Bytes>) {
    && (st.shown.Some? ==> st.shown.value in named)
    && forall sid :: sid in st.held ==> st.held[sid].checkedWith in named
  }

  lemma NamedStep(st: Open, a: OpenAction, named: iset<Bytes>)
    requires KeysAreNamed(st, named) && OpenEnabled(st, a, named)
    ensures KeysAreNamed(OpenNext(st, a), named)
  {
  }

  lemma {:induction false} CheckedWithNamed(agentKey: Bytes, named: iset<Bytes>, states: seq<Open>, actions: seq<OpenAction>, n: nat)
    requires OpenRun(agentKey, named, states, actions) && n < |states|
    ensures KeysAreNamed(states[n], named)
  {
    if n > 0 {
      CheckedWithNamed(agentKey, named, states, actions, n - 1);
      NamedStep(states[n - 1], actions[n - 1], named);
    }
  }

  lemma OpenOneMore(agentKey: Bytes, named: iset<Bytes>, states: seq<Open>, actions: seq<OpenAction>, a: OpenAction)
    returns (states': seq<Open>, actions': seq<OpenAction>)
    requires OpenRun(agentKey, named, states, actions) && OpenEnabled(states[|actions|], a, named)
    ensures OpenRun(agentKey, named, states', actions')
    ensures |actions'| == |actions| + 1 && states'[|actions'|] == OpenNext(states[|actions|], a)
  {
    states', actions' := states + [OpenNext(states[|actions|], a)], actions + [a];
    assert states'[0] == states[0];
    forall i | 0 <= i < |actions'|
      ensures OpenEnabled(states'[i], actions'[i], named) && states'[i + 1] == OpenNext(states'[i], actions'[i])
    {
      if i < |actions| {
        assert states'[i] == states[i] && states'[i + 1] == states[i + 1] && actions'[i] == actions[i];
      }
    }
  }

  /** A reply under a key that is not the agent's. */
  function OwnReply(key: Bytes, pub: Bytes, sid: Sid): PtyCreated {
    PtyCreated(sid, Some(Exchange(pub, Signed(key, KeyExchangeData(pub, pub, sid)))), Some(0))
  }

  /** The witness: a relay that names another identity key has a terminal establish keys although the
      agent never performed a handshake; and when the agent list is what names it, nothing is reported. */
  lemma OtherKeyIsBelieved(agentKey: Bytes, known: Option<Bytes>, key: Bytes, pub: Bytes, sid: Sid)
    returns (states: seq<Open>, actions: seq<OpenAction>)
    requires key != agentKey && PublicKey(pub)
    ensures OpenRun(agentKey, iset{key}, states, actions)
    ensures states[0] == OpenInit(agentKey, known)
    ensures var last := states[|actions|];
            sid in last.held && last.held[sid].checkedWith == key && last.done == {} && !last.warned
  {
    var named := iset{key};
    states, actions := [OpenInit(agentKey, known)], [];
    var s1 := OpenNext(states[0], Listed(key));
    var s2 := OpenNext(s1, Ask(0, pub));
    var s3 := OpenNext(s2, Delivered(OwnReply(key, pub, sid)));
    var s4 := OpenNext(s3, Mounted(sid));
    OtherKeyEstablishes(s3, key, pub, sid);
    states := [states[0], s1, s2, s3, s4];
    actions := [Listed(key), Ask(0, pub), Delivered(OwnReply(key, pub, sid)), Mounted(sid)];
  }

  lemma OtherKeyEstablishes(st: Open, key: Bytes, pub: Bytes, sid: Sid)
    requires PublicKey(pub) && st.shown == Some(key) && st.tab.bound == map[sid := pub]
    requires st.tab.exchange == map[sid := OwnReply(key, pub, sid).exchange.value]
    ensures Establishes(key, st.tab, sid)
  {
  }

  lemma OtherKeyIsUnsafe(agentKey: Bytes, named: iset<Bytes>, key: Bytes)
    requires key in named && key != agentKey
    ensures !Safe(agentKey, named)
  {
    var sid: Sid, pub: Bytes := [], BigEndian(0, 65);
    var states, actions := OtherKeyIsBelieved(agentKey, None, key, pub, sid);
    assert OpenRun(agentKey, named, states, actions);
    var n: nat := |actions|;
    assert sid in states[n].held && !Agreed(states[n], sid);
  }

  /** Established keys are agreed keys, in all runs with any relay, exactly when the relay names no
      identity key but the agent's own. */
  lemma AgreedExactly(agentKey: Bytes, named: iset<Bytes>)
    ensures Safe(agentKey, named) <==> forall key :: key in named ==> key == agentKey
  {
    if key :| key in named && key != agentKey {
      OtherKeyIsUnsafe(agentKey, named, key);
    } else {
      forall states: seq<Open>, actions: seq<OpenAction>, n: nat, sid: Sid
        | OpenRun(agentKey, named, states, actions) && n < |states| && sid in states[n].held
        ensures Agreed(states[n], sid)
      {
        CheckedWithNamed(agentKey, named, states, actions, n);
        EstablishedMeansAgentAgreed(agentKey, named, states, actions, n, sid);
      }
    }
  }

  // ---------------------------------------------------------------- what trust on first use adds

  /** Every key in an agent list was announced by agent.online before, and the user accepts no other key. */
  ghost predicate OnlyAnnounced(states: seq<Open>, actions: seq<OpenAction>, n: nat)
    requires |states| == |actions| + 1
  {
    forall i :: 0 <= i < n && i < |actions| ==> Announced(states[i], actions[i])
  }

  predicate Announced(st: Open, a: OpenAction) {
    !a.AcceptKey? && (a.Listed? ==> a.key in st.looked)
  }

  /** Every key in use was announced, and an announced key that is not the agent's is still being
      compared or was reported. */
  ghost predicate AllLooked(st: Open) {
    && st.known == Some(st.agentKey)
    && (forall key :: key in st.looking ==> st.looking[key] == st.known)
    && (st.shown.Some? ==> st.shown.value in st.looked)
    && (forall sid :: sid in st.held ==> st.held[sid].checkedWith in st.looked)
    && (!st.warned ==> forall key :: key in st.looked && key !in st.looking ==> key == st.agentKey)
  }

  lemma LookedStep(st: Open, a: OpenAction)
    requires AllLooked(st) && Announced(st, a)
    ensures AllLooked(OpenNext(st, a)) && OpenNext(st, a).agentKey == st.agentKey
  {
  }

  ghost predicate LookedOn(states: seq<Open>, i: nat)
    requires i + 1 < |states|
  {
    AllLooked(states[i]) ==> AllLooked(states[i + 1]) && states[i + 1].agentKey == states[i].agentKey
  }

  lemma LookedInRun(agentKey: Bytes, named: iset<Bytes>, states: seq<Open>, actions: seq<OpenAction>, i: nat)
    requires OpenRun(agentKey, named, states, actions) && i < |actions| && Announced(states[i], actions[i])
    ensures LookedOn(states, i)
  {
    if AllLooked(states[i]) {
      LookedStep(states[i], actions[i]);
    }
  }

  lemma {:induction false} LookedFrom(states: seq<Open>, n: nat)
    requires n < |states| && AllLooked(states[0])
    requires forall i: nat :: i < n ==> LookedOn(states, i)
    ensures AllLooked(states[n]) && states[n].agentKey == states[0].agentKey
  {
    if n > 0 {
      LookedFrom(states, n - 1);
      assert LookedOn(states, n - 1);
    }
  }

  lemma LookedAtStart(agentKey: Bytes, known: Option<Bytes>)
    requires known == Some(agentKey)
    ensures AllLooked(OpenInit(agentKey, known))
  {
  }

  lemma LookedRun(agentKey: Bytes, named: iset<Bytes>, states: seq<Open>, actions: seq<OpenAction>, n: nat)
    requires OpenRun(agentKey, named, states, actions) && n < |states|
    requires states[0].known == Some(agentKey) && OnlyAnnounced(states, actions, n)
    ensures AllLooked(states[n]) && states[n].agentKey == agentKey
  {
    LookedAtStart(agentKey, states[0].known);
    forall i: nat | i < n ensures LookedOn(states, i) {
      assert Announced(states[i], actions[i]);
      LookedInRun(agentKey, named, states, actions, i);
    }
    LookedFrom(states, n);
  }

  /** A browser that stored the agent's key before, with agent lists that name announced keys alone: when
      every comparison is done and none reported a mismatch, every established key was agreed to by the
      agent. */
  lemma NoWarningMeansAgreed(agentKey: Bytes, named: iset<Bytes>, states: seq<Open>, actions: seq<OpenAction>, n: nat, sid: Sid)
    requires OpenRun(agentKey, named, states, actions) && n < |states|
    requires states[0].known == Some(agentKey) && OnlyAnnounced(states, actions, n)
    requires !states[n].warned && states[n].looking == map[] && sid in states[n].held
    ensures Agreed(states[n], sid)
  {
    LookedRun(agentKey, named, states, actions, n);
    EstablishedMeansAgentAgreed(agentKey, named, states, actions, n, sid);
  }
}
