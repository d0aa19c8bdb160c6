/**
 The broker process: the tables the handlers update in place, one method per handler, each proved to
 perform the corresponding step of HostModel.
 */
module Host {
  import opened Common
  import opened Routing
  import opened HostModel
  import opened HostCoherence
  import opened HostSessions

  class Broker {
    const secret: string

    // Connections and peers. `conns` stands for the closure variables of each socket's handlers.
    var conns: map<nat, Conn>
    var nextConn: nat
    var nextSid: nat
    var bridges: seq<Peer>
    var consumers: seq<nat>
    var httpBridgeSessions: map<nat, Session>
    var bridgeCapabilities: map<Peer, seq<string>>
    var consumerSubscriptions: map<nat, Subscription>
    var pendingControl: map<ControlId, Pending>
    var bridgeLastScreenshot: map<nat, nat>
    var windowStart: nat
    var windowCount: nat

    // What left the process, and what happened on the way.
    var wire: seq<Sent>
    var replies: seq<Reply>
    ghost var judged: seq<Judgement>
    ghost var ledger: seq<LedgerEntry>
    ghost var mail: seq<Mail>
    ghost var shots: seq<Shot>

    ghost function State(): HostState
      reads this
    {
      HostState(conns, nextConn, nextSid, bridges, consumers, httpBridgeSessions, bridgeCapabilities,
                consumerSubscriptions, pendingControl, bridgeLastScreenshot, Window(windowStart, windowCount))
    }

    ghost function Logged(): Log
      reads this
    {
      Log(wire, replies, judged, ledger, mail, shots)
    }

    /** The tables are as the outcome says, and its log has been added to `before`. */
    ghost predicate Did(before: Log, o: Outcome)
      reads this
    {
      State() == o.state && Logged() == Join(before, o.log)
    }

    ghost predicate Valid()
      reads this
    {
      Coherent(State())
    }

    constructor (secret: string, now: nat)
      ensures Valid() && State() == Initial(now) && Logged() == NOTHING && this.secret == secret
    {
      this.secret := secret;
      conns, nextConn, nextSid := map[], 0, 0;
      bridges, consumers := [], [];
      httpBridgeSessions, bridgeCapabilities, consumerSubscriptions := map[], map[], map[];
      pendingControl, bridgeLastScreenshot := map[], map[];
      windowStart, windowCount := now, 0;
      wire, replies, judged, ledger, mail, shots := [], [], [], [], [], [];
    }

    method Send(ws: nat, f: Frame)
      modifies `wire
      ensures wire == old(wire) + HostModel.Send(conns, ws, f)
    {
      if ws in conns && conns[ws].open {
        wire := wire + [Sent(ws, f)];
      }
    }

    method CloseSocket(ws: nat)
      modifies `conns
      ensures State() == Close(old(State()), ws)
    {
      if ws in conns {
        conns := conns[ws := conns[ws].(open := false)];
      }
    }

    /* ---------- routing ---------- */

    method FilterEventForConsumer(level: string, filter: NoiseFilter, now: nat) returns (ok: bool)
      modifies `windowStart, `windowCount
      ensures Window(windowStart, windowCount) == Evaluate(old(Window(windowStart, windowCount)), now)
      ensures ok == FilterAccepts(filter, level, windowCount)
    {
      if now - windowStart > WINDOW_MS {
        windowStart := now;
        windowCount := 0;
      }
      windowCount := windowCount + 1;
      if windowCount > WINDOW_LIMIT && filter != Off {
        return level == "error";
      }
      var lvl := Lower(level);
      match filter
      case Off => ok := true;
      case Minimal => ok := !(lvl == "debug" || lvl == "log");
      case Aggressive => ok := !(lvl == "debug" || lvl == "log" || lvl == "info");
    }

    /** The decision for one open consumer; `f` is the fan-out so far. */
    method ShouldRouteToConsumer(c: nat, from: Peer, m: Msg, now: nat, ghost f: FanOut, ghost judged0: seq<Judgement>)
      returns (ok: bool)
      requires IsOpen(conns, c) && f.window == Window(windowStart, windowCount) && judged == judged0 + f.judged
      modifies `windowStart, `windowCount, `judged
      ensures var g := OfferOne(old(State()), c, from, m, now, f);
        && g.window == Window(windowStart, windowCount)
        && g.recipients == f.recipients + (if ok then [c] else [])
        && judged == judged0 + g.judged
    {
      if c in consumerSubscriptions {
        var sub := consumerSubscriptions[c];
        var passed := FilterEventForConsumer(m.level, sub.filter, now);
        ghost var j := Judgement(now, Window(windowStart, windowCount), c, sub.filter, m.level, passed);
        judged := judged + [j];
        assert judged == judged0 + (f.judged + [j]);
        ok := passed && Matches(Some(sub), m.typ, m.level, Lookup(bridgeCapabilities, from));
      } else {
        ok := Matches(None, m.typ, m.level, Lookup(bridgeCapabilities, from));
      }
    }

    /** One pass over the consumers: who is open and should receive the message. */
    method Interested(from: Peer, m: Msg, now: nat) returns (chosen: seq<nat>)
      modifies `windowStart, `windowCount, `judged
      ensures var f := Offer(old(State()), consumers, from, m, now);
        && chosen == f.recipients
        && State() == old(State()).(window := f.window)
        && judged == old(judged) + f.judged
    {
      chosen := [];
      ghost var s0, f := State(), FanOut(State().window, [], []);
      assert consumers[..0] == [];
      for i := 0 to |consumers|
        invariant f == Offer(s0, consumers[..i], from, m, now)
        invariant chosen == f.recipients
        invariant State() == s0.(window := f.window)
        invariant judged == old(judged) + f.judged
      {
        assert consumers[..i + 1][..i] == consumers[..i];
        var c := consumers[i];
        ghost var g := OfferOne(s0, c, from, m, now, f);
        assert g == OfferOne(State(), c, from, m, now, f);
        if c in conns && conns[c].open {
          var ok := ShouldRouteToConsumer(c, from, m, now, f, old(judged));
          if ok {
            chosen := chosen + [c];
          }
        }
        f := g;
      }
      assert consumers[..|consumers|] == consumers;
    }

    method SendToAll(targets: seq<nat>, f: Frame)
      requires forall c :: c in targets ==> IsOpen(conns, c)
      modifies `wire
      ensures wire == old(wire) + SendAll(targets, f)
    {
      for i := 0 to |targets|
        invariant wire == old(wire) + SendAll(targets[..i], f)
      {
        Send(targets[i], f);
        assert SendAll(targets[..i + 1], f) == SendAll(targets[..i], f) + [Sent(targets[i], f)];
      }
      assert targets[..|targets|] == targets;
    }

    /** Offers a message to one consumer and sends `f` at once if it should be received; `o` is the fan-out so far. */
    method SendIfInterested(c: nat, from: Peer, m: Msg, f: Frame, now: nat,
                            ghost o: FanOut, ghost p: FanOut, ghost wire0: seq<Sent>, ghost judged0: seq<Judgement>)
      returns (sent: bool)
      requires o.window == Window(windowStart, windowCount) && p == OfferOne(State(), c, from, m, now, o)
      requires wire == wire0 + SendAll(o.recipients, f) && judged == judged0 + o.judged
      modifies `wire, `windowStart, `windowCount, `judged
      ensures p.window == Window(windowStart, windowCount)
      ensures wire == wire0 + SendAll(p.recipients, f) && judged == judged0 + p.judged
      ensures p.recipients == o.recipients + (if sent then [c] else [])
    {
      if !(c in conns && conns[c].open) {
        return false;
      }
      sent := ShouldRouteToConsumer(c, from, m, now, o, judged0);
      if sent {
        SendAllSnoc(o.recipients, c, f);
        Associates(wire0, SendAll(o.recipients, f), [Sent(c, f)]);
        Send(c, f);
      } else {
        assert p.recipients == o.recipients;
      }
    }

    /** Offers a message to every consumer, in order. */
    method Broadcast(from: Peer, m: Msg, f: Frame, now: nat) returns (delivered: nat)
      modifies `wire, `windowStart, `windowCount, `judged
      ensures var o := Offer(old(State()), consumers, from, m, now);
        && State() == old(State()).(window := o.window)
        && wire == old(wire) + SendAll(o.recipients, f)
        && judged == old(judged) + o.judged
        && delivered == |o.recipients|
    {
      delivered := 0;
      ghost var s0, o := State(), FanOut(State().window, [], []);
      assert consumers[..0] == [];
      for i := 0 to |consumers|
        invariant o == Offer(s0, consumers[..i], from, m, now)
        invariant State() == s0.(window := o.window)
        invariant wire == old(wire) + SendAll(o.recipients, f)
        invariant judged == old(judged) + o.judged
        invariant delivered == |o.recipients|
      {
        assert consumers[..i + 1][..i] == consumers[..i];
        var c := consumers[i];
        ghost var p := OfferOne(s0, c, from, m, now, o);
        assert p == OfferOne(State(), c, from, m, now, o);
        var sent := SendIfInterested(c, from, m, f, now, o, p, old(wire), old(judged));
        delivered := delivered + (if sent then 1 else 0);
        o := p;
      }
      assert consumers[..|consumers|] == consumers;
    }

    method DeliverToConsumers(from: Peer, m: Msg, now: nat)
      modifies `wire, `windowStart, `windowCount, `judged
      ensures Did(old(Logged()), Deliver(old(State()), from, m, now))
    {
      var sentCount := Broadcast(from, m, Event(m), now);
    }

    /* ---------- control ---------- */

    method ForwardResult(id: ControlId, m: Msg)
      modifies this
      ensures Did(old(Logged()), Settle(old(State()), id, m))
    {
      if id in pendingControl && IsOpen(conns, pendingControl[id].replyTo) {
        var to := pendingControl[id].replyTo;
        Send(to, Answer(m));
        pendingControl := Without(pendingControl, id);
        ledger := ledger + [Answered(id, to)];
      }
    }

    method Register(id: ControlId, p: Pending)
      modifies `pendingControl, `ledger
      ensures pendingControl == old(pendingControl)[id := p] && ledger == old(ledger) + [Registered(id, p)]
    {
      pendingControl := pendingControl[id := p];
      ledger := ledger + [Registered(id, p)];
    }

    method RequestFromBridge(ws: nat, m: Msg, now: nat)
      modifies `wire, `windowStart, `windowCount, `judged, `pendingControl, `ledger
      ensures Did(old(Logged()), BridgeRequest(old(State()), ws, m, now))
    {
      var delivered := Broadcast(Ws(ws), m.(level := "info"), Frame.Request(m), now);
      if delivered > 0 {
        Register(m.id, Pending(ws, FromBridge));
      } else {
        Send(ws, NoTarget(m.id));
      }
    }

    method ControlTargets() returns (targets: seq<Peer>)
      ensures targets == Targets(State())
    {
      targets := [];
      ghost var s0 := State();
      assert bridges[..0] == [];
      for i := 0 to |bridges|
        invariant targets == Filter(bridges[..i], p => TakesControl(s0, p))
      {
        assert bridges[..i + 1][..i] == bridges[..i];
        var p := bridges[i];
        if (p.Ws? ==> IsOpen(conns, p.id)) && HasCapability(Lookup(bridgeCapabilities, p), "control") {
          targets := targets + [p];
        }
      }
      assert bridges[..|bridges|] == bridges;
    }

    /** A WebSocket bridge is sent the request; an HTTP bridge finds it at the end of its queue. */
    method PassOnTo(p: Peer, m: Msg)
      requires match p case Ws(w) => IsOpen(conns, w) case Http(sid) => sid in httpBridgeSessions
      modifies `wire, `httpBridgeSessions, `mail
      ensures wire == old(wire) + (if p.Ws? then [Sent(p.id, Frame.Request(m))] else [])
      ensures mail == old(mail) + (if p.Http? then [Pushed(p.sid, m)] else [])
      ensures httpBridgeSessions ==
              if p.Http? then QueuedOne(old(httpBridgeSessions), p.sid, m) else old(httpBridgeSessions)
    {
      match p
      case Http(sid) =>
        var session := httpBridgeSessions[sid];
        httpBridgeSessions := httpBridgeSessions[sid := session.(queue := session.queue + [m])];
        mail := mail + [Pushed(sid, m)];
      case Ws(w) =>
        Send(w, Frame.Request(m));
    }

    method PassOn(targets: seq<Peer>, m: Msg)
      requires NoDup(targets) && forall p :: p in targets ==> Reachable(State(), p)
      modifies `wire, `httpBridgeSessions, `mail
      ensures wire == old(wire) + RequestFrames(targets, m)
      ensures mail == old(mail) + RequestMail(targets, m)
      ensures httpBridgeSessions == Queued(old(httpBridgeSessions), targets, m)
    {
      assert targets[..0] == [];
      for i := 0 to |targets|
        invariant wire == old(wire) + RequestFrames(targets[..i], m)
        invariant mail == old(mail) + RequestMail(targets[..i], m)
        invariant httpBridgeSessions == Queued(old(httpBridgeSessions), targets[..i], m)
      {
        assert targets[..i + 1] == targets[..i] + [targets[i]] && targets[i] !in targets[..i];
        assert targets[i] in targets && Reachable(old(State()), targets[i]);
        QueuedKeys(old(httpBridgeSessions), targets[..i], m);
        OneMoreTarget(old(httpBridgeSessions), targets[..i], targets[i], m);
        var p := targets[i];
        Associates(old(wire), RequestFrames(targets[..i], m), if p.Ws? then [Sent(p.id, Frame.Request(m))] else []);
        Associates(old(mail), RequestMail(targets[..i], m), if p.Http? then [Pushed(p.sid, m)] else []);
        PassOnTo(p, m);
      }
      assert targets[..|targets|] == targets;
    }

    method RequestFromConsumer(ws: nat, m: Msg, now: nat)
      requires Valid() && ws in conns
      modifies `wire, `httpBridgeSessions, `mail, `pendingControl, `ledger
      ensures Did(old(Logged()), ConsumerRequest(old(State()), ws, m, now))
    {
      var id := RequestId(m, conns[ws].clientId, now);
      TargetsCanBeReached(State());
      var targets := ControlTargets();
      if |targets| == 0 {
        Send(ws, NoTarget(id));
      } else {
        ForwardRequest(targets, ws, m.(typ := "control_request", id := id));
      }
    }

    method ForwardRequest(targets: seq<Peer>, ws: nat, payload: Msg)
      requires NoDup(targets) && forall p :: p in targets ==> Reachable(State(), p)
      modifies `wire, `httpBridgeSessions, `mail, `pendingControl, `ledger
      ensures State() == old(State()).(pending := old(pendingControl)[payload.id := Pending(ws, FromConsumer)],
                                       sessions := Queued(old(httpBridgeSessions), targets, payload))
      ensures wire == old(wire) + (RequestFrames(targets, payload) +
                                   HostModel.Send(conns, ws, Forwarded(payload.id, |targets|)))
      ensures mail == old(mail) + RequestMail(targets, payload)
      ensures ledger == old(ledger) + [Registered(payload.id, Pending(ws, FromConsumer))]
    {
      Register(payload.id, Pending(ws, FromConsumer));
      PassOn(targets, payload);
      Send(ws, Forwarded(payload.id, |targets|));
    }

    /* ---------- screenshots ---------- */

    method HandleScreenshot(ws: nat, m: Msg, now: nat)
      modifies this
      ensures Did(old(Logged()), Screenshot(old(State()), ws, m, now))
    {
      if Ws(ws) !in bridgeCapabilities || "screenshot" !in bridgeCapabilities[Ws(ws)] {
        Send(ws, Notice(MissingCapability));
      } else if ws in bridgeLastScreenshot && bridgeLastScreenshot[ws] != 0
                && now - bridgeLastScreenshot[ws] < SCREENSHOT_RATE_LIMIT_MS {
        Send(ws, Notice(RateLimit(SCREENSHOT_RATE_LIMIT_MS - (now - bridgeLastScreenshot[ws]))));
      } else {
        ForwardScreenshot(ws, m, now);
      }
    }

    method ForwardScreenshot(ws: nat, m: Msg, now: nat)
      modifies `wire, `windowStart, `windowCount, `judged, `bridgeLastScreenshot, `shots
      ensures Did(old(Logged()), Forward(old(State()), ws, m, now))
    {
      RecipientsAreOpen(State(), consumers, Ws(ws), m, now);
      var interestedConsumers := Interested(Ws(ws), m, now);
      SendScreenshot(ws, m, interestedConsumers, now);
    }

    method SendScreenshot(ws: nat, m: Msg, interested: seq<nat>, now: nat)
      requires forall c :: c in interested ==> IsOpen(conns, c)
      modifies `wire, `bridgeLastScreenshot, `shots
      ensures Did(old(Logged()), HandOver(old(State()), interested, ws, m, now))
    {
      if |interested| == 0 {
        Send(ws, Notice(NoConsumers));
        return;
      }
      bridgeLastScreenshot := bridgeLastScreenshot[ws := now];
      if m.mime == "" || m.data == "" {
        Send(ws, Notice(InvalidFormat));
      } else {
        SendToAll(interested, Event(Completed(m, now)));
        shots := shots + [Shot(ws, now)];
      }
    }

    /* ---------- WebSocket handlers ---------- */

    method OnConnection()
      modifies this
      ensures Did(old(Logged()), Silent(old(State()).(conns := old(conns)[old(nextConn) := Conn(true, None, "")],
                                                      nextConn := old(nextConn) + 1)))
    {
      conns := conns[nextConn := Conn(true, None, "")];
      nextConn := nextConn + 1;
    }

    method HandleAuth(ws: nat, m: Msg, now: nat)
      requires ws in conns
      modifies `conns, `bridges, `consumers, `wire
      ensures Did(old(Logged()), Authenticate(old(State()), secret, ws, m, now))
    {
      if m.typ == "auth" && m.rest.secret == secret {
        var role := if m.rest.role == "" then "bridge" else m.rest.role;
        Admit(ws, role, if m.rest.clientId == "" then role + "-" + Decimal(now) else m.rest.clientId);
      } else {
        CloseSocket(ws);
      }
    }

    method Admit(ws: nat, role: string, clientId: string)
      requires ws in conns
      modifies `conns, `bridges, `consumers, `wire
      ensures var c := old(conns)[ws].(role := Some(role), clientId := clientId);
        var s1 := old(State()).(conns := old(conns)[ws := c]);
        State() == if role == "bridge" then s1.(bridges := s1.bridges + [Ws(ws)])
                   else if role == "consumer" then s1.(consumers := s1.consumers + [ws])
                   else Close(s1, ws)
      ensures wire == old(wire) + (if role == "bridge" || role == "consumer"
                                   then HostModel.Send(old(conns), ws, AuthSuccess(role, clientId)) else [])
    {
      conns := conns[ws := conns[ws].(role := Some(role), clientId := clientId)];
      if role == "bridge" {
        bridges := bridges + [Ws(ws)];
      } else if role == "consumer" {
        consumers := consumers + [ws];
      } else {
        CloseSocket(ws);
        return;
      }
      Send(ws, AuthSuccess(role, clientId));
    }

    method HandleBridge(ws: nat, m: Msg, now: nat)
      requires ws in conns
      modifies this
      ensures Did(old(Logged()), BridgeFrame(old(State()), ws, m, now))
    {
      if m.typ == "hello" {
        bridgeCapabilities := bridgeCapabilities[Ws(ws) := m.rest.capabilities];
        Send(ws, HelloAck(conns[ws].clientId));
      } else if m.typ == "control_result" {
        ForwardResult(m.id, m);
      } else if m.typ == "control_request" {
        RequestFromBridge(ws, m, now);
      } else if m.typ == "screenshot" {
        HandleScreenshot(ws, m, now);
      } else {
        DeliverToConsumers(Ws(ws), m, now);
      }
    }

    method HandleConsumer(ws: nat, m: Msg, now: nat)
      requires Valid() && ws in conns
      modifies this
      ensures Did(old(Logged()), ConsumerFrame(old(State()), ws, m, now))
    {
      if m.typ == "subscribe" {
        var levels := if m.rest.levels.Some? then m.rest.levels.value else ["errors"];
        var sub := Subscription(levels, m.rest.capabilities, ParseFilter(m.rest.llmFilter));
        consumerSubscriptions := consumerSubscriptions[ws := sub];
        Send(ws, SubscribeAck(conns[ws].clientId, sub.levels, sub.caps, sub.filter));
      } else if m.typ == "control_request" || m.typ == "control" {
        RequestFromConsumer(ws, m, now);
      } else if m.typ == "control_result" {
        ForwardResult(m.id, m);
      }
    }

    method HandleMessage(ws: nat, m: Msg, now: nat)
      requires Valid() && ws in conns
      modifies this
      ensures Did(old(Logged()), OnMessage(old(State()), secret, ws, m, now))
    {
      var role := conns[ws].role;
      if role.None? {
        HandleAuth(ws, m, now);
      } else if m.typ == "ping" {
        Send(ws, Pong);
      } else if role.value == "bridge" {
        HandleBridge(ws, m, now);
      } else if role.value == "consumer" {
        HandleConsumer(ws, m, now);
      }
    }

    /** Drops the requests a closed socket is waiting for, entry by entry. */
    method DropPending(ws: nat)
      modifies `pendingControl, `ledger
      ensures pendingControl == old(pendingControl) - Abandoned(old(pendingControl), ws)
      ensures ledger == old(ledger) + [Dropped(Abandoned(old(pendingControl), ws))]
    {
      ledger := ledger + [Dropped(Abandoned(pendingControl, ws))];
      var todo := pendingControl.Keys;
      while todo != {}
        invariant todo <= pendingControl.Keys
        invariant forall id :: id in pendingControl <==>
                    id in old(pendingControl) && (id in todo || old(pendingControl)[id].replyTo != ws)
        invariant forall id :: id in pendingControl ==> pendingControl[id] == old(pendingControl)[id]
        invariant ledger == old(ledger) + [Dropped(Abandoned(old(pendingControl), ws))]
        decreases todo
      {
        var id :| id in todo;
        todo := todo - {id};
        if pendingControl[id].replyTo == ws {
          pendingControl := pendingControl - {id};
        }
      }
    }

    method HandleClose(ws: nat)
      requires ws in conns
      modifies this
      ensures Did(old(Logged()), OnClose(old(State()), ws))
    {
      var role := conns[ws].role;
      conns := Without(conns, ws);
      ForgetPeer(ws, role);
      DropPending(ws);
    }

    method ForgetPeer(ws: nat, role: Option<string>)
      modifies `bridges, `bridgeCapabilities, `bridgeLastScreenshot, `consumers, `consumerSubscriptions
      ensures var s := old(State());
        State() ==
        if role == Some("bridge") then
          s.(bridges := Remove(s.bridges, Ws(ws)), capabilities := Without(s.capabilities, Ws(ws)),
             lastShot := Without(s.lastShot, ws))
        else if role == Some("consumer") then
          s.(consumers := Remove(s.consumers, ws), subscriptions := Without(s.subscriptions, ws))
        else s
    {
      if role == Some("bridge") {
        bridges := Remove(bridges, Ws(ws));
        bridgeCapabilities := Without(bridgeCapabilities, Ws(ws));
        bridgeLastScreenshot := Without(bridgeLastScreenshot, ws);
      } else if role == Some("consumer") {
        consumers := Remove(consumers, ws);
        consumerSubscriptions := Without(consumerSubscriptions, ws);
      }
    }

    /* ---------- HTTP handlers ---------- */

    method RemoveHttpSession(sid: nat)
      modifies `httpBridgeSessions, `bridges, `bridgeCapabilities
      ensures State() == RemoveSessions(old(State()), {sid})
    {
      RemovalOfOne(State(), sid);
      httpBridgeSessions := httpBridgeSessions - {sid};
      bridges := Remove(bridges, Http(sid));
      bridgeCapabilities := Without(bridgeCapabilities, Http(sid));
    }

    method PruneHttpSessions(now: nat)
      modifies `httpBridgeSessions, `bridges, `bridgeCapabilities
      ensures State() == RemoveSessions(old(State()), Expired(old(State()), now))
    {
      ghost var s0 := State();
      ghost var gone: set<nat> := {};
      var todo := httpBridgeSessions.Keys;
      RemovalOfNone(s0);
      while todo != {}
        invariant todo <= s0.sessions.Keys
        invariant gone == set sid | sid in s0.sessions && sid !in todo && sid in Expired(s0, now)
        invariant State() == RemoveSessions(s0, gone)
        decreases todo
      {
        var sid :| sid in todo;
        todo := todo - {sid};
        assert httpBridgeSessions[sid] == s0.sessions[sid];
        if now - httpBridgeSessions[sid].lastSeen > STALE_MS {
          RemovalOfMore(s0, gone, sid);
          RemoveHttpSession(sid);
          gone := gone + {sid};
        }
      }
      assert gone == Expired(s0, now);
    }

    method HandleEvents(sid: nat, events: seq<Msg>, now: nat)
      modifies this
      ensures Did(old(Logged()), DeliverAll(old(State()), sid, events, now))
    {
      ghost var s0, l0 := State(), Logged();
      assert events[..0] == [];
      for i := 0 to |events|
        invariant Did(l0, DeliverAll(s0, sid, events[..i], now))
      {
        assert events[..i + 1][..i] == events[..i];
        ghost var before := DeliverAll(s0, sid, events[..i], now);
        var m := events[i];
        if m.timestamp == 0 { m := m.(timestamp := now); }
        if m.level == "" { m := m.(level := "info"); }
        if m.typ == "" { m := m.(typ := "log"); }
        DeliverToConsumers(Http(sid), m, now);
        JoinAssociates(l0, before.log, Deliver(before.state, Http(sid), m, now).log);
      }
      assert events[..|events|] == events;
    }

    method ConnectSession(bodySecret: string, headerSecret: string, now: nat)
      modifies this
      ensures Did(old(Logged()), OnConnect(old(State()), secret, bodySecret, headerSecret, now))
    {
      if (if bodySecret != "" then bodySecret else headerSecret) != secret {
        replies := replies + [Status(401)];
      } else {
        var sid := nextSid;
        nextSid := nextSid + 1;
        httpBridgeSessions := httpBridgeSessions[sid := Session([], now)];
        bridges := bridges + [Http(sid)];
        replies := replies + [SessionCreated(sid)];
      }
    }

    method DisconnectSession(sid: nat, now: nat)
      modifies this
      ensures Did(old(Logged()), OnHttp(old(State()), secret, Disconnect(sid), now))
    {
      if sid in httpBridgeSessions {
        RemoveHttpSession(sid);
      }
      replies := replies + [Status(204)];
    }

    method HandleHttp(r: HttpRequest, now: nat)
      modifies this
      ensures Did(old(Logged()), OnHttp(old(State()), secret, r, now))
    {
      match r
      case Connect(bodySecret, headerSecret) => ConnectSession(bodySecret, headerSecret, now);
      case Disconnect(sid) => DisconnectSession(sid, now);
      case UnknownRoute => replies := replies + [Status(404)];
      case MalformedBody => replies := replies + [Status(500)];
      case _ =>
        ghost var s0, l0 := State(), Logged();
        if r.sid !in httpBridgeSessions {
          replies := replies + [Status(404)];
          assert OnHttp(s0, secret, r, now) == Responds(s0, Status(404));
        } else {
          httpBridgeSessions := httpBridgeSessions[r.sid := httpBridgeSessions[r.sid].(lastSeen := now)];
          assert State() == Touch(s0, r.sid, now);
          assert OnHttp(s0, secret, r, now) == OnSession(State(), r, now);
          HandleSession(r, now);
        }
    }

    method PollSession(sid: nat)
      requires sid in httpBridgeSessions
      modifies `httpBridgeSessions, `mail, `replies
      ensures httpBridgeSessions == old(httpBridgeSessions)[sid := old(httpBridgeSessions)[sid].(queue := [])]
      ensures mail == old(mail) + [Taken(sid, old(httpBridgeSessions)[sid].queue)]
      ensures replies == old(replies) + [Commands(old(httpBridgeSessions)[sid].queue)]
    {
      var commands := httpBridgeSessions[sid].queue;
      httpBridgeSessions := httpBridgeSessions[sid := httpBridgeSessions[sid].(queue := [])];
      mail := mail + [Taken(sid, commands)];
      replies := replies + [Commands(commands)];
    }

    method HandleSession(r: HttpRequest, now: nat)
      requires r.Hello? || r.Events? || r.ControlResult? || r.Poll? || r.Heartbeat?
      requires r.sid in httpBridgeSessions
      modifies this
      ensures Did(old(Logged()), OnSession(old(State()), r, now))
    {
      match r
      case Hello(sid, capabilities) =>
        bridgeCapabilities := bridgeCapabilities[Http(sid) := capabilities];
        replies := replies + [HelloOk(sid)];
      case Events(sid, events) =>
        HandleEvents(sid, events, now);
        RepliesOfDelivery(old(State()), sid, events, now);
        replies := replies + [Status(204)];
      case ControlResult(sid, id, ok, payload) =>
        ForwardResult(id, ResultMsg(id, ok, payload));
        replies := replies + [Status(204)];
      case Poll(sid) =>
        PollSession(sid);
      case Heartbeat(sid) =>
        replies := replies + [Status(204)];
    }

    /* ---------- the event loop ---------- */

    /** Any event the process can meet. */
    method Handle(e: Input)
      requires Valid()
      modifies this
      ensures Valid() && Did(old(Logged()), Step(old(State()), secret, e))
    {
      ghost var s0, l0 := State(), Logged();
      StepCoherent(s0, secret, e);
      match e.what
      case Message(ws, m) => if ws in conns { HandleMessage(ws, m, e.now); }
      case HttpCall(r) => HandleHttp(r, e.now);
      case _ => HandleSocketOrTimer(e);
    }

    method HandleSocketOrTimer(e: Input)
      requires !e.what.Message? && !e.what.HttpCall?
      modifies this
      ensures Did(old(Logged()), Step(old(State()), secret, e))
    {
      match e.what
      case Connection => OnConnection();
      case BadFrame(ws) => CloseSocket(ws);
      case AuthTimeout(ws) => if ws in conns && conns[ws].role.None? { CloseSocket(ws); }
      case PeerClosing(ws) => CloseSocket(ws);
      case Closed(ws) => if ws in conns { HandleClose(ws); }
      case PruneTick => PruneHttpSessions(e.now);
    }

    /** The process serving a sequence of events is a run of the model. */
    method Serve(es: seq<Input>)
      requires Valid()
      modifies this
      ensures Valid() && Did(old(Logged()), Run(old(State()), secret, es))
    {
      ghost var s0, l0 := State(), Logged();
      assert es[..0] == [];
      for i := 0 to |es|
        invariant Valid() && Did(l0, Run(s0, secret, es[..i]))
      {
        assert es[..i + 1][..i] == es[..i];
        ghost var before := Run(s0, secret, es[..i]);
        Handle(es[i]);
        JoinAssociates(l0, before.log, Step(before.state, secret, es[i]).log);
      }
      assert es[..|es|] == es;
    }
  }

  /* ---------- facts the handlers need ---------- */

  predicate Reachable(s: HostState, p: Peer) {
    match p case Ws(w) => IsOpen(s.conns, w) case Http(sid) => sid in s.sessions
  }

  function QueuedOne(sessions: map<nat, Session>, sid: nat, m: Msg): map<nat, Session>
    requires sid in sessions
  {
    sessions[sid := sessions[sid].(queue := sessions[sid].queue + [m])]
  }

  lemma OneMoreTarget(sessions: map<nat, Session>, targets: seq<Peer>, p: Peer, m: Msg)
    requires p !in targets && (p.Http? ==> p.sid in sessions)
    ensures RequestFrames(targets + [p], m) ==
            RequestFrames(targets, m) + (if p.Ws? then [Sent(p.id, Frame.Request(m))] else [])
    ensures RequestMail(targets + [p], m) == RequestMail(targets, m) + (if p.Http? then [Pushed(p.sid, m)] else [])
    ensures Queued(sessions, targets + [p], m) ==
            if p.Http? then QueuedOne(Queued(sessions, targets, m), p.sid, m) else Queued(sessions, targets, m)
  {
    assert (targets + [p])[..|targets|] == targets;
  }

  lemma JoinAssociates(a: Log, b: Log, c: Log)
    ensures Join(Join(a, b), c) == Join(a, Join(b, c))
  {
  }

  lemma TargetsCanBeReached(s: HostState)
    requires Coherent(s)
    ensures NoDup(Targets(s))
    ensures forall p :: p in Targets(s) ==> Reachable(s, p)
  {
    TargetsAreCapable(s);
  }

  lemma {:induction false} RecipientsAreOpen(s: HostState, cs: seq<nat>, from: Peer, m: Msg, now: nat)
    ensures forall c :: c in Offer(s, cs, from, m, now).recipients ==> IsOpen(s.conns, c)
  {
    if cs != [] {
      RecipientsAreOpen(s, cs[..|cs| - 1], from, m, now);
    }
  }

  lemma {:induction false} RepliesOfDelivery(s: HostState, sid: nat, ms: seq<Msg>, now: nat)
    ensures DeliverAll(s, sid, ms, now).log.replies == []
  {
    if ms != [] {
      RepliesOfDelivery(s, sid, ms[..|ms| - 1], now);
    }
  }

  lemma {:induction false} FilterSame<T>(xs: seq<T>, p: T -> bool, q: T -> bool)
    requires forall x :: x in xs ==> p(x) == q(x)
    ensures Filter(xs, p) == Filter(xs, q)
  {
    if xs != [] {
      var n := |xs| - 1;
      assert xs == xs[..n] + [xs[n]];
      FilterSame(xs[..n], p, q);
    }
  }

  lemma {:induction false} FilterTwice<T>(xs: seq<T>, p: T -> bool, q: T -> bool, both: T -> bool)
    requires forall x :: x in xs ==> both(x) == (p(x) && q(x))
    ensures Filter(Filter(xs, p), q) == Filter(xs, both)
  {
    if xs != [] {
      var n := |xs| - 1;
      assert xs == xs[..n] + [xs[n]];
      FilterTwice(xs[..n], p, q, both);
      FilterConcat(Filter(xs[..n], p), if p(xs[n]) then [xs[n]] else [], q);
      assert [xs[n]][..0] == [];
      assert Filter([xs[n]], q) == Filter([xs[n]][..0], q) + (if q(xs[n]) then [xs[n]] else []);
    }
  }

  lemma RemoveIsFilter<T>(xs: seq<T>, x: T, q: T -> bool)
    requires forall y :: y in xs ==> q(y) == (y != x)
    ensures Remove(xs, x) == Filter(xs, q)
  {
    FilterSame(xs, (y: T) => y != x, q);
  }

  lemma RemovalOfOne(s: HostState, sid: nat)
    ensures RemoveSessions(s, {sid}) == s.(sessions := s.sessions - {sid}, bridges := Remove(s.bridges, Http(sid)),
                                           capabilities := Without(s.capabilities, Http(sid)))
  {
    var gone := {sid};
    var t := RemoveSessions(s, gone);
    RemoveIsFilter(s.bridges, Http(sid), (p: Peer) => !(p.Http? && p.sid in gone));
    assert t.bridges == Remove(s.bridges, Http(sid));
    assert t.capabilities == Without(s.capabilities, Http(sid));
  }

  lemma RemovalOfNone(s: HostState)
    ensures RemoveSessions(s, {}) == s
  {
    var gone: set<nat> := {};
    FilterSame(s.bridges, (p: Peer) => !(p.Http? && p.sid in gone), (p: Peer) => true);
    FilterAll(s.bridges);
    var t := RemoveSessions(s, {});
    assert t.bridges == s.bridges && t.capabilities == s.capabilities && t.sessions == s.sessions;
  }

  lemma {:induction false} FilterAll<T>(xs: seq<T>)
    ensures Filter(xs, (x: T) => true) == xs
  {
    if xs != [] {
      FilterAll(xs[..|xs| - 1]);
    }
  }

  lemma RemovalOfMore(s: HostState, gone: set<nat>, sid: nat)
    ensures RemoveSessions(RemoveSessions(s, gone), {sid}) == RemoveSessions(s, gone + {sid})
  {
    var one, all := {sid}, gone + {sid};
    var before, now, both := (p: Peer) => !(p.Http? && p.sid in gone), (p: Peer) => !(p.Http? && p.sid in one),
                             (p: Peer) => !(p.Http? && p.sid in all);
    FilterTwice(s.bridges, before, now, both);
    var l, r := RemoveSessions(RemoveSessions(s, gone), {sid}), RemoveSessions(s, gone + {sid});
    assert l.sessions == r.sessions;
    assert l.capabilities == r.capabilities;
    assert l.bridges == r.bridges;
  }
}
