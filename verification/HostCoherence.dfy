/** What every reachable state of the host's tables satisfies, and what a close leaves behind. */
module HostCoherence {
  import opened Common
  import opened Routing
  import opened HostModel

  predicate HasRole(conns: map<nat, Conn>, ws: nat, role: string) {
    ws in conns && conns[ws].role == Some(role)
  }

  function RoleOf(o: Origin): string {
    match o case FromBridge => "bridge" case FromConsumer => "consumer"
  }

  /** The peer sets hold exactly the authenticated sockets of their role and the live HTTP sessions. */
  ghost predicate PeersCoherent(conns: map<nat, Conn>, bridges: seq<Peer>, consumers: seq<nat>, sessions: set<nat>) {
    && NoDup(bridges) && NoDup(consumers)
    && (forall ws :: Ws(ws) in bridges <==> HasRole(conns, ws, "bridge"))
    && (forall ws :: ws in consumers <==> HasRole(conns, ws, "consumer"))
    && (forall sid :: Http(sid) in bridges <==> sid in sessions)
  }

  /** Per-peer tables have entries for current peers only. */
  ghost predicate KeysCoherent(bridges: seq<Peer>, consumers: seq<nat>, capabilities: set<Peer>,
                               lastShot: set<nat>, subscriptions: set<nat>) {
    && (forall p :: p in capabilities ==> p in bridges)
    && (forall ws :: ws in lastShot ==> Ws(ws) in bridges)
    && (forall ws :: ws in subscriptions ==> ws in consumers)
  }

  /** Every pending request would be answered to a connected socket of the role that asked. */
  ghost predicate PendingCoherent(conns: map<nat, Conn>, pending: map<ControlId, Pending>) {
    forall id :: id in pending ==> HasRole(conns, pending[id].replyTo, RoleOf(pending[id].origin))
  }

  ghost predicate IdsCoherent(conns: set<nat>, nextConn: nat, sessions: set<nat>, nextSid: nat) {
    && (forall ws :: ws in conns ==> ws < nextConn)
    && (forall sid :: sid in sessions ==> sid < nextSid)
  }

  /** The tables agree with each other. */
  ghost predicate Coherent(s: HostState) {
    && PeersCoherent(s.conns, s.bridges, s.consumers, s.sessions.Keys)
    && KeysCoherent(s.bridges, s.consumers, s.capabilities.Keys, s.lastShot.Keys, s.subscriptions.Keys)
    && PendingCoherent(s.conns, s.pending)
    && IdsCoherent(s.conns.Keys, s.nextConn, s.sessions.Keys, s.nextSid)
  }

  lemma InitialCoherent(now: nat)
    ensures Coherent(Initial(now))
  {
  }

  /** A peer is a bridge or a consumer, never both. */
  lemma RolesAreDisjoint(s: HostState, ws: nat)
    requires Coherent(s)
    ensures !(Ws(ws) in s.bridges && ws in s.consumers)
  {
    assert "bridge"[0] != "consumer"[0];
  }

  lemma NoDupSnoc<T>(xs: seq<T>, x: T)
    requires NoDup(xs) && x !in xs
    ensures NoDup(xs + [x])
  {
  }

  /** Tables that mention roles only do not notice a socket's readyState. */
  lemma CloseCoherent(s: HostState, ws: nat)
    requires Coherent(s)
    ensures Coherent(Close(s, ws))
  {
    var t := Close(s, ws);
    assert t.conns.Keys == s.conns.Keys;
    assert forall w, r :: HasRole(t.conns, w, r) == HasRole(s.conns, w, r);
  }

  /** Giving a role to a socket that has none. */
  lemma JoinPeers(conns: map<nat, Conn>, bridges: seq<Peer>, consumers: seq<nat>, sessions: set<nat>,
                  ws: nat, c: Conn)
    requires PeersCoherent(conns, bridges, consumers, sessions)
    requires ws in conns && conns[ws].role.None? && c.role.Some?
    ensures var conns' := conns[ws := c];
      && (c.role.value == "bridge" ==> PeersCoherent(conns', bridges + [Ws(ws)], consumers, sessions))
      && (c.role.value == "consumer" ==> PeersCoherent(conns', bridges, consumers + [ws], sessions))
      && (c.role.value != "bridge" && c.role.value != "consumer" ==>
            PeersCoherent(conns', bridges, consumers, sessions))
  {
    var conns' := conns[ws := c];
    assert "bridge"[0] != "consumer"[0];
    assert Ws(ws) !in bridges && ws !in consumers;
    NoDupSnoc(bridges, Ws(ws));
    NoDupSnoc(consumers, ws);
    assert forall w, r :: w != ws ==> HasRole(conns', w, r) == HasRole(conns, w, r);
    assert forall r :: HasRole(conns', ws, r) <==> r == c.role.value;
  }

  lemma JoinCoherent(s: HostState, ws: nat, c: Conn)
    requires Coherent(s) && ws in s.conns && s.conns[ws].role.None? && c.role.Some?
    ensures var t := s.(conns := s.conns[ws := c]);
      && (c.role.value == "bridge" ==> Coherent(t.(bridges := s.bridges + [Ws(ws)])))
      && (c.role.value == "consumer" ==> Coherent(t.(consumers := s.consumers + [ws])))
      && (c.role.value != "bridge" && c.role.value != "consumer" ==> Coherent(t))
  {
    var conns' := s.conns[ws := c];
    assert conns'.Keys == s.conns.Keys;
    JoinPeers(s.conns, s.bridges, s.consumers, s.sessions.Keys, ws, c);
    assert PendingCoherent(conns', s.pending) by {
      assert forall w, r :: HasRole(s.conns, w, r) ==> HasRole(conns', w, r);
    }
    assert KeysCoherent(s.bridges + [Ws(ws)], s.consumers, s.capabilities.Keys, s.lastShot.Keys, s.subscriptions.Keys);
    assert KeysCoherent(s.bridges, s.consumers + [ws], s.capabilities.Keys, s.lastShot.Keys, s.subscriptions.Keys);
  }

  lemma EnrolCoherent(s: HostState, ws: nat, role: string, clientId: string)
    requires Coherent(s) && ws in s.conns && s.conns[ws].role.None?
    ensures Coherent(Enrol(s, ws, role, clientId).state)
  {
    var c := s.conns[ws].(role := Some(role), clientId := clientId);
    JoinCoherent(s, ws, c);
    if role != "bridge" && role != "consumer" {
      CloseCoherent(s.(conns := s.conns[ws := c]), ws);
    }
  }

  lemma AuthenticateCoherent(s: HostState, secret: string, ws: nat, m: Msg, now: nat)
    requires Coherent(s) && ws in s.conns && s.conns[ws].role.None?
    ensures Coherent(Authenticate(s, secret, ws, m, now).state)
  {
    if m.typ == "auth" && m.rest.secret == secret {
      var role := if m.rest.role == "" then "bridge" else m.rest.role;
      EnrolCoherent(s, ws, role, if m.rest.clientId == "" then role + "-" + Decimal(now) else m.rest.clientId);
    } else {
      CloseCoherent(s, ws);
    }
  }

  lemma RegisterCoherent(conns: map<nat, Conn>, pending: map<ControlId, Pending>, id: ControlId, p: Pending)
    requires PendingCoherent(conns, pending) && HasRole(conns, p.replyTo, RoleOf(p.origin))
    ensures PendingCoherent(conns, pending[id := p])
  {
  }

  lemma SettleCoherent(s: HostState, id: ControlId, m: Msg)
    requires Coherent(s)
    ensures Coherent(Settle(s, id, m).state)
  {
  }

  lemma ScreenshotCoherent(s: HostState, ws: nat, m: Msg, now: nat)
    requires Coherent(s) && Ws(ws) in s.bridges
    ensures Coherent(Screenshot(s, ws, m, now).state)
  {
    var w := Offer(s, s.consumers, Ws(ws), m, now).window;
    var moved, stamped := s.(window := w), s.(window := w, lastShot := s.lastShot[ws := now]);
    assert Coherent(moved);
    assert Coherent(stamped) by {
      assert s.lastShot[ws := now].Keys == s.lastShot.Keys + {ws};
    }
    var t := Screenshot(s, ws, m, now).state;
    assert t == s || t == moved || t == stamped;
  }

  lemma BridgeRequestCoherent(s: HostState, ws: nat, m: Msg, now: nat)
    requires Coherent(s) && HasRole(s.conns, ws, "bridge")
    ensures Coherent(BridgeRequest(s, ws, m, now).state)
  {
    RegisterCoherent(s.conns, s.pending, m.id, Pending(ws, FromBridge));
  }

  lemma BridgeFrameCoherent(s: HostState, ws: nat, m: Msg, now: nat)
    requires Coherent(s) && HasRole(s.conns, ws, "bridge")
    ensures Coherent(BridgeFrame(s, ws, m, now).state)
  {
    assert Ws(ws) in s.bridges;
    if m.typ == "hello" {
      assert s.capabilities[Ws(ws) := m.rest.capabilities].Keys == s.capabilities.Keys + {Ws(ws)};
    } else if m.typ == "control_result" {
      SettleCoherent(s, m.id, m);
    } else if m.typ == "control_request" {
      BridgeRequestCoherent(s, ws, m, now);
    } else if m.typ == "screenshot" {
      ScreenshotCoherent(s, ws, m, now);
    }
  }

  lemma ConsumerFrameCoherent(s: HostState, ws: nat, m: Msg, now: nat)
    requires Coherent(s) && HasRole(s.conns, ws, "consumer")
    ensures Coherent(ConsumerFrame(s, ws, m, now).state)
  {
    var t := ConsumerFrame(s, ws, m, now).state;
    if m.typ == "subscribe" {
      assert t.subscriptions.Keys == s.subscriptions.Keys + {ws};
    } else if m.typ == "control_request" || m.typ == "control" {
      var id := RequestId(m, s.conns[ws].clientId, now);
      assert t.sessions.Keys == s.sessions.Keys;
      RegisterCoherent(s.conns, s.pending, id, Pending(ws, FromConsumer));
    } else if m.typ == "control_result" {
      SettleCoherent(s, m.id, m);
    }
  }

  /** Closing removes the socket from every table, whatever its role was. */
  function Forget(s: HostState, ws: nat): HostState {
    s.(conns := Without(s.conns, ws), pending := s.pending - Abandoned(s.pending, ws),
       bridges := Remove(s.bridges, Ws(ws)), capabilities := Without(s.capabilities, Ws(ws)),
       lastShot := Without(s.lastShot, ws),
       consumers := Remove(s.consumers, ws), subscriptions := Without(s.subscriptions, ws))
  }

  lemma {:induction false} RemoveAbsent<T>(xs: seq<T>, x: T)
    requires x !in xs
    ensures Remove(xs, x) == xs
  {
    if xs != [] {
      RemoveAbsent(xs[..|xs| - 1], x);
      assert Remove(xs[..|xs| - 1], x) == Filter(xs[..|xs| - 1], (y: T) => y != x);
    }
  }

  /** The role-dependent clean-up of the close handler is the same as forgetting the socket everywhere. */
  lemma CloseIsForget(s: HostState, ws: nat)
    requires Coherent(s) && ws in s.conns
    ensures OnClose(s, ws).state == Forget(s, ws)
  {
    assert "bridge"[0] != "consumer"[0];
    if s.conns[ws].role != Some("bridge") {
      RemoveAbsent(s.bridges, Ws(ws));
      assert Without(s.capabilities, Ws(ws)) == s.capabilities;
      assert Without(s.lastShot, ws) == s.lastShot;
    }
    if s.conns[ws].role != Some("consumer") {
      RemoveAbsent(s.consumers, ws);
      assert Without(s.subscriptions, ws) == s.subscriptions;
    }
  }

  /** No table refers to the socket after its close event. */
  lemma CloseLeavesNoReference(s: HostState, ws: nat)
    requires Coherent(s) && ws in s.conns
    ensures var t := OnClose(s, ws).state;
      && ws !in t.conns && Ws(ws) !in t.bridges && ws !in t.consumers
      && Ws(ws) !in t.capabilities && ws !in t.subscriptions && ws !in t.lastShot
      && (forall id :: id in t.pending ==> t.pending[id].replyTo != ws)
  {
    CloseIsForget(s, ws);
    RemoveProps(s.bridges, Ws(ws));
    RemoveProps(s.consumers, ws);
  }

  /** And every other socket, session and request keeps its entries and its place. */
  lemma CloseKeepsOthers(s: HostState, ws: nat)
    requires Coherent(s) && ws in s.conns
    ensures var t := OnClose(s, ws).state;
      && Subsequence(t.bridges, s.bridges) && (forall p :: p in s.bridges && p != Ws(ws) ==> p in t.bridges)
      && Subsequence(t.consumers, s.consumers) && (forall c :: c in s.consumers && c != ws ==> c in t.consumers)
      && (forall id :: id in s.pending && s.pending[id].replyTo != ws ==> Lookup(t.pending, id) == Some(s.pending[id]))
      && (forall p :: p in s.capabilities && p != Ws(ws) ==> Lookup(t.capabilities, p) == Some(s.capabilities[p]))
      && (forall c :: c in s.subscriptions && c != ws ==> Lookup(t.subscriptions, c) == Some(s.subscriptions[c]))
      && (forall w :: w in s.lastShot && w != ws ==> Lookup(t.lastShot, w) == Some(s.lastShot[w]))
      && (forall w :: w in s.conns && w != ws ==> Lookup(t.conns, w) == Some(s.conns[w]))
      && t.sessions == s.sessions && t.window == s.window
  {
    CloseIsForget(s, ws);
    RemoveProps(s.bridges, Ws(ws));
    RemoveProps(s.consumers, ws);
  }

  lemma OnCloseCoherent(s: HostState, ws: nat)
    requires Coherent(s) && ws in s.conns
    ensures Coherent(OnClose(s, ws).state)
  {
    CloseIsForget(s, ws);
    RemoveProps(s.bridges, Ws(ws));
    RemoveProps(s.consumers, ws);
    ClosedPeersCoherent(s.conns, s.bridges, s.consumers, s.sessions.Keys, ws);
    ClosedPendingCoherent(s.conns, s.pending, ws);
  }

  lemma ClosedPeersCoherent(conns: map<nat, Conn>, bridges: seq<Peer>, consumers: seq<nat>, sessions: set<nat>, ws: nat)
    requires PeersCoherent(conns, bridges, consumers, sessions)
    ensures PeersCoherent(Without(conns, ws), Remove(bridges, Ws(ws)), Remove(consumers, ws), sessions)
  {
    RemoveProps(bridges, Ws(ws));
    RemoveProps(consumers, ws);
    assert forall w, r :: HasRole(Without(conns, ws), w, r) <==> w != ws && HasRole(conns, w, r);
  }

  lemma ClosedPendingCoherent(conns: map<nat, Conn>, pending: map<ControlId, Pending>, ws: nat)
    requires PendingCoherent(conns, pending)
    ensures PendingCoherent(Without(conns, ws), pending - Abandoned(pending, ws))
  {
    assert forall w, r :: w != ws ==> HasRole(Without(conns, ws), w, r) == HasRole(conns, w, r);
  }

  lemma RemoveProps<T>(xs: seq<T>, x: T)
    requires NoDup(xs)
    ensures NoDup(Remove(xs, x)) && Subsequence(Remove(xs, x), xs)
    ensures forall y :: y in Remove(xs, x) <==> y in xs && y != x
  {
    FilterMembers(xs, (y: T) => y != x);
    FilterNoDup(xs, (y: T) => y != x);
    FilterIsSubsequence(xs, (y: T) => y != x);
  }

  /** Removing HTTP sessions takes them out of every table together and leaves every other peer alone. */
  lemma RemovalForgets(s: HostState, gone: set<nat>)
    requires Coherent(s)
    ensures var t := RemoveSessions(s, gone);
      && Coherent(t)
      && (forall sid :: sid in t.sessions <==> sid in s.sessions && sid !in gone)
      && (forall sid :: sid in t.sessions ==> t.sessions[sid] == s.sessions[sid])
      && (forall p :: p in t.bridges <==> p in s.bridges && !(p.Http? && p.sid in gone))
      && (forall p :: p in t.capabilities <==> p in s.capabilities && !(p.Http? && p.sid in gone))
      && (forall p :: p in t.capabilities ==> t.capabilities[p] == s.capabilities[p])
      && t == s.(sessions := t.sessions, bridges := t.bridges, capabilities := t.capabilities)
      && Subsequence(t.bridges, s.bridges)
  {
    var keep := (p: Peer) => !(p.Http? && p.sid in gone);
    FilterMembers(s.bridges, keep);
    FilterNoDup(s.bridges, keep);
    FilterIsSubsequence(s.bridges, keep);
  }

  lemma {:induction false} DeliverAllCoherent(s: HostState, sid: nat, ms: seq<Msg>, now: nat)
    requires Coherent(s)
    ensures DeliverAll(s, sid, ms, now).state == s.(window := DeliverAll(s, sid, ms, now).state.window)
    ensures Coherent(DeliverAll(s, sid, ms, now).state)
  {
    if ms != [] {
      DeliverAllCoherent(s, sid, ms[..|ms| - 1], now);
    }
  }

  lemma TouchCoherent(s: HostState, sid: nat, now: nat)
    requires Coherent(s) && sid in s.sessions
    ensures Coherent(Touch(s, sid, now))
  {
    assert Touch(s, sid, now).sessions.Keys == s.sessions.Keys;
  }

  lemma SessionCoherent(s: HostState, r: HttpRequest, now: nat)
    requires r.Hello? || r.Events? || r.ControlResult? || r.Poll? || r.Heartbeat?
    requires Coherent(s) && r.sid in s.sessions
    ensures Coherent(OnSession(s, r, now).state)
  {
    match r
    case Hello(sid, caps) =>
      assert s.capabilities[Http(sid) := caps].Keys == s.capabilities.Keys + {Http(sid)};
    case Events(sid, ms) => DeliverAllCoherent(s, sid, ms, now);
    case ControlResult(_, id, ok, payload) => SettleCoherent(s, id, ResultMsg(id, ok, payload));
    case Poll(sid) => assert OnSession(s, r, now).state.sessions.Keys == s.sessions.Keys;
    case Heartbeat(_) =>
  }

  lemma ConnectCoherent(s: HostState, now: nat)
    requires Coherent(s)
    ensures var sid := s.nextSid;
      Coherent(s.(nextSid := sid + 1, sessions := s.sessions[sid := Session([], now)],
                  bridges := s.bridges + [Http(sid)]))
  {
    var sid := s.nextSid;
    assert Http(sid) !in s.bridges;
    NoDupSnoc(s.bridges, Http(sid));
    assert s.sessions[sid := Session([], now)].Keys == s.sessions.Keys + {sid};
  }

  lemma HttpCoherent(s: HostState, secret: string, r: HttpRequest, now: nat)
    requires Coherent(s)
    ensures Coherent(OnHttp(s, secret, r, now).state)
  {
    match r
    case Connect(_, _) => ConnectCoherent(s, now);
    case Disconnect(sid) => RemovalForgets(s, {sid});
    case UnknownRoute =>
    case MalformedBody =>
    case _ =>
      if r.sid in s.sessions {
        TouchCoherent(s, r.sid, now);
        SessionCoherent(Touch(s, r.sid, now), r, now);
      }
  }

  lemma ConnectionCoherent(s: HostState)
    requires Coherent(s)
    ensures Coherent(s.(conns := s.conns[s.nextConn := Conn(true, None, "")], nextConn := s.nextConn + 1))
  {
    var conns' := s.conns[s.nextConn := Conn(true, None, "")];
    assert s.nextConn !in s.conns;
    assert forall w, r :: HasRole(conns', w, r) == HasRole(s.conns, w, r);
    assert conns'.Keys == s.conns.Keys + {s.nextConn};
  }

  lemma FrameCoherent(s: HostState, secret: string, ws: nat, m: Msg, now: nat)
    requires Coherent(s) && ws in s.conns
    ensures Coherent(OnMessage(s, secret, ws, m, now).state)
  {
    match s.conns[ws].role
    case None => AuthenticateCoherent(s, secret, ws, m, now);
    case Some(role) =>
      if role == "bridge" {
        BridgeFrameCoherent(s, ws, m, now);
      } else if role == "consumer" {
        ConsumerFrameCoherent(s, ws, m, now);
      }
  }

  lemma TimersCoherent(s: HostState, secret: string, e: Input)
    requires Coherent(s) && !e.what.Message? && !e.what.HttpCall?
    ensures Coherent(Step(s, secret, e).state)
  {
    match e.what
    case Connection => ConnectionCoherent(s);
    case BadFrame(ws) => CloseCoherent(s, ws);
    case AuthTimeout(ws) => CloseCoherent(s, ws);
    case PeerClosing(ws) => CloseCoherent(s, ws);
    case Closed(ws) => if ws in s.conns { OnCloseCoherent(s, ws); }
    case PruneTick => RemovalForgets(s, Expired(s, e.now));
  }

  /** Every step keeps the tables coherent. */
  lemma StepCoherent(s: HostState, secret: string, e: Input)
    requires Coherent(s)
    ensures Coherent(Step(s, secret, e).state)
  {
    match e.what
    case Message(ws, m) => if ws in s.conns { FrameCoherent(s, secret, ws, m, e.now); }
    case HttpCall(r) => HttpCoherent(s, secret, r, e.now);
    case _ => TimersCoherent(s, secret, e);
  }

  lemma {:induction false} RunCoherent(s: HostState, secret: string, es: seq<Input>)
    requires Coherent(s)
    ensures Coherent(Run(s, secret, es).state)
  {
    if es != [] {
      var n := |es| - 1;
      RunCoherent(s, secret, es[..n]);
      StepCoherent(Run(s, secret, es[..n]).state, secret, es[n]);
    }
  }

  /** Table coherence in every reachable state. */
  lemma {:induction false} ReachableCoherent(start: nat, secret: string, es: seq<Input>)
    ensures Coherent(Run(Initial(start), secret, es).state)
  {
    InitialCoherent(start);
    RunCoherent(Initial(start), secret, es);
  }

  /* ---------- who gets in ---------- */

  /**
   The first frame decides: with the right secret the socket gets its role, joins the end of that role's
   table and is acknowledged; otherwise it is closed and joins nothing.
   */
  lemma FirstFrameDecides(s: HostState, secret: string, ws: nat, m: Msg, now: nat)
    requires Coherent(s) && ws in s.conns && s.conns[ws].role.None?
    ensures var t := Step(s, secret, Input(now, Message(ws, m))).state;
      if m.typ == "auth" && m.rest.secret == secret && (m.rest.role == "" || m.rest.role == "bridge") then
        HasRole(t.conns, ws, "bridge") && t.bridges == s.bridges + [Ws(ws)] && t.consumers == s.consumers
      else if m.typ == "auth" && m.rest.secret == secret && m.rest.role == "consumer" then
        HasRole(t.conns, ws, "consumer") && t.consumers == s.consumers + [ws] && t.bridges == s.bridges
      else t.bridges == s.bridges && t.consumers == s.consumers && !IsOpen(t.conns, ws)
  {
    assert Step(s, secret, Input(now, Message(ws, m))) == Authenticate(s, secret, ws, m, now);
    AuthenticateDecides(s, secret, ws, m, now);
  }

  lemma AuthenticateDecides(s: HostState, secret: string, ws: nat, m: Msg, now: nat)
    requires ws in s.conns
    ensures var t := Authenticate(s, secret, ws, m, now).state;
      if m.typ == "auth" && m.rest.secret == secret && (m.rest.role == "" || m.rest.role == "bridge") then
        HasRole(t.conns, ws, "bridge") && t.bridges == s.bridges + [Ws(ws)] && t.consumers == s.consumers
      else if m.typ == "auth" && m.rest.secret == secret && m.rest.role == "consumer" then
        HasRole(t.conns, ws, "consumer") && t.consumers == s.consumers + [ws] && t.bridges == s.bridges
      else t.bridges == s.bridges && t.consumers == s.consumers && !IsOpen(t.conns, ws)
  {
    assert "bridge"[0] != "consumer"[0];
  }

  lemma BridgeFrameKeepsConns(s: HostState, ws: nat, m: Msg, now: nat)
    requires ws in s.conns
    ensures BridgeFrame(s, ws, m, now).state.conns == s.conns
  {
    BridgeFrameChanges(s, ws, m, now);
  }

  lemma LaterFramesKeepConns(s: HostState, secret: string, ws: nat, m: Msg, now: nat)
    requires ws in s.conns && s.conns[ws].role.Some?
    ensures OnMessage(s, secret, ws, m, now).state.conns == s.conns
  {
    if m.typ == "ping" {
    } else if s.conns[ws].role == Some("bridge") {
      BridgeFrameKeepsConns(s, ws, m, now);
    } else if s.conns[ws].role == Some("consumer") {
      ConsumerFrameChanges(s, ws, m, now);
    }
  }

  predicate Presents(e: Input, ws: nat, secret: string) {
    e.what.Message? && e.what.ws == ws && e.what.m.typ == "auth" && e.what.m.rest.secret == secret
  }

  predicate Entitled(before: Conn, after: Conn, presented: bool) {
    (after.role != before.role ==> presented) && (after.open ==> before.open)
  }

  lemma AuthenticateGrants(s: HostState, secret: string, src: nat, m: Msg, now: nat, ws: nat)
    requires src in s.conns && s.conns[src].role.None? && ws in s.conns
    ensures var t := Authenticate(s, secret, src, m, now).state;
      ws in t.conns && Entitled(s.conns[ws], t.conns[ws], ws == src && m.typ == "auth" && m.rest.secret == secret)
  {
    var c := AuthenticateWrites(s, secret, src, m, now);
  }

  lemma EnrolWrites(s: HostState, src: nat, role: string, clientId: string) returns (c: Conn)
    requires src in s.conns
    ensures Enrol(s, src, role, clientId).state.conns == s.conns[src := c] && Entitled(s.conns[src], c, true)
  {
    var known := s.conns[src].(role := Some(role), clientId := clientId);
    c := if role == "bridge" || role == "consumer" then known else known.(open := false);
    assert s.conns[src := known][src := known.(open := false)] == s.conns[src := known.(open := false)];
  }

  lemma AuthenticateWrites(s: HostState, secret: string, src: nat, m: Msg, now: nat) returns (c: Conn)
    requires src in s.conns
    ensures Authenticate(s, secret, src, m, now).state.conns == s.conns[src := c]
    ensures Entitled(s.conns[src], c, m.typ == "auth" && m.rest.secret == secret)
  {
    if m.typ == "auth" && m.rest.secret == secret {
      var role := if m.rest.role == "" then "bridge" else m.rest.role;
      c := EnrolWrites(s, src, role, if m.rest.clientId == "" then role + "-" + Decimal(now) else m.rest.clientId);
    } else {
      c := s.conns[src].(open := false);
    }
  }

  /** Roles are granted once, and by the secret only; a socket that is no longer open never reopens. */
  lemma RolesAreGrantedBySecret(s: HostState, secret: string, e: Input, ws: nat)
    requires Coherent(s) && ws in s.conns && ws in Step(s, secret, e).state.conns
    ensures var c, c' := s.conns[ws], Step(s, secret, e).state.conns[ws];
      (c'.role != c.role ==> c.role.None? && Presents(e, ws, secret)) && (c'.open ==> c.open)
  {
    match e.what
    case Message(src, m) => if src in s.conns { FrameGrants(s, secret, src, m, e.now, ws); }
    case HttpCall(r) => HttpKeepsConns(s, secret, r, e.now);
    case _ => TimersGrantNothing(s, secret, e, ws);
  }

  lemma FrameGrants(s: HostState, secret: string, src: nat, m: Msg, now: nat, ws: nat)
    requires src in s.conns && ws in s.conns
    ensures var t := OnMessage(s, secret, src, m, now).state;
      ws in t.conns && Entitled(s.conns[ws], t.conns[ws],
                                ws == src && s.conns[ws].role.None? && m.typ == "auth" && m.rest.secret == secret)
  {
    if s.conns[src].role.None? {
      AuthenticateGrants(s, secret, src, m, now, ws);
    } else {
      LaterFramesKeepConns(s, secret, src, m, now);
    }
  }

  lemma TimersGrantNothing(s: HostState, secret: string, e: Input, ws: nat)
    requires Coherent(s) && !e.what.Message? && !e.what.HttpCall?
    requires ws in s.conns && ws in Step(s, secret, e).state.conns
    ensures Entitled(s.conns[ws], Step(s, secret, e).state.conns[ws], false)
  {
    match e.what
    case Connection => assert s.nextConn !in s.conns;
    case Closed(src) => if src in s.conns { CloseGrantsNothing(s, src, ws); }
    case PruneTick => RemovalForgets(s, Expired(s, e.now));
    case BadFrame(src) => ClosingGrantsNothing(s, src, ws);
    case AuthTimeout(src) => ClosingGrantsNothing(s, src, ws);
    case PeerClosing(src) => ClosingGrantsNothing(s, src, ws);
  }

  lemma CloseGrantsNothing(s: HostState, src: nat, ws: nat)
    requires Coherent(s) && src in s.conns && ws in s.conns && ws in OnClose(s, src).state.conns
    ensures OnClose(s, src).state.conns[ws] == s.conns[ws]
  {
    CloseKeepsOthers(s, src);
  }

  lemma ClosingGrantsNothing(s: HostState, src: nat, ws: nat)
    requires ws in s.conns
    ensures ws in Close(s, src).conns && Entitled(s.conns[ws], Close(s, src).conns[ws], false)
  {
  }

  lemma HttpKeepsConns(s: HostState, secret: string, r: HttpRequest, now: nat)
    requires Coherent(s)
    ensures OnHttp(s, secret, r, now).state.conns == s.conns
  {
    if r.Events? && r.sid in s.sessions {
      TouchCoherent(s, r.sid, now);
      DeliverAllCoherent(Touch(s, r.sid, now), r.sid, r.events, now);
    }
  }

  /** A session is opened by the secret only: fresh, empty, just seen, and in no table but the bridges. */
  lemma ConnectNeedsSecret(s: HostState, secret: string, bodySecret: string, headerSecret: string, now: nat)
    requires Coherent(s)
    ensures var o := Step(s, secret, Input(now, HttpCall(Connect(bodySecret, headerSecret))));
      if bodySecret == secret != "" || (bodySecret == "" && headerSecret == secret) then
        exists sid :: sid !in s.sessions && o.log.replies == [SessionCreated(sid)]
          && o.state.sessions == s.sessions[sid := Session([], now)] && o.state.bridges == s.bridges + [Http(sid)]
          && Http(sid) !in o.state.capabilities
      else o == Responds(s, Status(401))
  {
    var sid := s.nextSid;
    assert sid !in s.sessions && Http(sid) !in s.bridges;
  }
}
