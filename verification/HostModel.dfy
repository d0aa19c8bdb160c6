/**
 The host broker as a transition system: its tables, one step per WebSocket frame, HTTP request,
 timer tick or close event, and a log of everything the step did.
 */
module HostModel {
  import opened Common
  import opened Routing

  /* ---------- messages ---------- */

  // Fields of a frame the host only copies or reads in a single place.
  datatype Rest = Rest(secret: string, role: string, clientId: string, capabilities: seq<string>,
                       levels: Option<seq<string>>, llmFilter: string, ok: bool,
                       route: string, url: string, payload: nat)

  /** A parsed frame. Empty strings and a zero timestamp stand for absent fields. */
  datatype Msg = Msg(typ: string, level: string, id: Option<string>, timestamp: nat, platform: string,
                     text: string, mime: string, data: string, rest: Rest)

  // A Map key: a frame without an id is filed under `undefined`.
  type ControlId = Option<string>

  /** What the host sends. Relayed frames carry the message and the path that sent them. */
  datatype Frame =
    | AuthSuccess(role: string, clientId: string)
    | Pong
    | HelloAck(clientId: string)
    | SubscribeAck(clientId: string, levels: seq<string>, caps: seq<string>, filter: NoiseFilter)
    | Notice(reason: NoticeReason)
    | Forwarded(id: ControlId, delivered: nat)
    | NoTarget(id: ControlId)
    | Event(m: Msg)
    | Request(m: Msg)
    | Answer(m: Msg)

  datatype NoticeReason = MissingCapability | RateLimit(retryAfterMs: nat) | NoConsumers | InvalidFormat

  datatype Reply =
    | Status(code: nat)
    | SessionCreated(sid: nat)
    | HelloOk(sid: nat)
    | Commands(commands: seq<Msg>)

  /* ---------- state ---------- */

  datatype Peer = Ws(id: nat) | Http(sid: nat)

  /** `open` is readyState 1; a socket stays in the table from connection to its close event. */
  datatype Conn = Conn(open: bool, role: Option<string>, clientId: string)

  datatype Session = Session(queue: seq<Msg>, lastSeen: nat)

  datatype Origin = FromBridge | FromConsumer

  datatype Pending = Pending(replyTo: nat, origin: Origin)

  // Sets are sequences because iteration follows insertion order.
  datatype HostState = HostState(
    conns: map<nat, Conn>, nextConn: nat, nextSid: nat,
    bridges: seq<Peer>, consumers: seq<nat>,
    sessions: map<nat, Session>,
    capabilities: map<Peer, seq<string>>,
    subscriptions: map<nat, Subscription>,
    pending: map<ControlId, Pending>,
    lastShot: map<nat, nat>,
    window: Window)

  function Initial(now: nat): HostState {
    HostState(map[], 0, 0, [], [], map[], map[], map[], map[], map[], Window(now, 0))
  }

  /* ---------- log ---------- */

  datatype Sent = Sent(ws: nat, frame: Frame)

  /** One call of the noise filter. `window` is the overload window right after it. */
  datatype Judgement = Judgement(now: nat, window: Window, consumer: nat, filter: NoiseFilter,
                                 level: string, passed: bool)

  datatype LedgerEntry =
    | Registered(id: ControlId, pending: Pending)
    | Answered(id: ControlId, replyTo: nat)
    | Dropped(ids: set<ControlId>)  // by the close of the socket that registered them

  datatype Mail = Pushed(sid: nat, m: Msg) | Taken(sid: nat, ms: seq<Msg>)

  /** A screenshot that got past every check and was handed to the interested consumers. */
  datatype Shot = Shot(ws: nat, at: nat)

  datatype Log = Log(wire: seq<Sent>, replies: seq<Reply>, judged: seq<Judgement>,
                     ledger: seq<LedgerEntry>, mail: seq<Mail>, shots: seq<Shot>)

  const NOTHING := Log([], [], [], [], [], [])

  function Join(a: Log, b: Log): Log {
    Log(a.wire + b.wire, a.replies + b.replies, a.judged + b.judged,
        a.ledger + b.ledger, a.mail + b.mail, a.shots + b.shots)
  }

  datatype Outcome = Outcome(state: HostState, log: Log)

  function Silent(s: HostState): Outcome { Outcome(s, NOTHING) }
  function Wire(s: HostState, wire: seq<Sent>): Outcome { Outcome(s, NOTHING.(wire := wire)) }
  function Responds(s: HostState, r: Reply): Outcome { Outcome(s, NOTHING.(replies := [r])) }

  /* ---------- helpers ---------- */

  predicate IsOpen(conns: map<nat, Conn>, ws: nat) {
    ws in conns && conns[ws].open
  }

  /** Sending on a socket that is not open does nothing. */
  function Send(conns: map<nat, Conn>, ws: nat, f: Frame): seq<Sent> {
    if IsOpen(conns, ws) then [Sent(ws, f)] else []
  }

  function Lookup<K, V>(m: map<K, V>, k: K): Option<V> {
    if k in m then Some(m[k]) else None
  }

  function Without<K, V>(m: map<K, V>, k: K): map<K, V> { m - {k} }

  function Remove<T(==)>(xs: seq<T>, x: T): (r: seq<T>)
  {
    Filter(xs, y => y != x)
  }

  function Close(s: HostState, ws: nat): HostState {
    if ws in s.conns then s.(conns := s.conns[ws := s.conns[ws].(open := false)]) else s
  }

  function Digit(d: nat): char
    requires d < 10
  {
    '0' + d as char
  }

  function Decimal(n: nat): string {
    if n < 10 then [Digit(n)] else Decimal(n / 10) + [Digit(n % 10)]
  }

  /* ---------- fan-out ---------- */

  datatype FanOut = FanOut(window: Window, judged: seq<Judgement>, recipients: seq<nat>)

  /** One message offered to the listed consumers in order; the filter's window moves while it goes. */
  function Offer(s: HostState, cs: seq<nat>, from: Peer, m: Msg, now: nat): FanOut {
    if cs == [] then FanOut(s.window, [], [])
    else
      var n := |cs| - 1;
      OfferOne(s, cs[n], from, m, now, Offer(s, cs[..n], from, m, now))
  }

  function OfferOne(s: HostState, c: nat, from: Peer, m: Msg, now: nat, f: FanOut): FanOut {
    if !IsOpen(s.conns, c) then f
    else
      var sub, caps := Lookup(s.subscriptions, c), Lookup(s.capabilities, from);
      if sub.None? then
        f.(recipients := f.recipients + (if Matches(None, m.typ, m.level, caps) then [c] else []))
      else
        var w := Evaluate(f.window, now);
        var passed := FilterAccepts(sub.value.filter, m.level, w.count);
        FanOut(w,
               f.judged + [Judgement(now, w, c, sub.value.filter, m.level, passed)],
               f.recipients + (if passed && Matches(sub, m.typ, m.level, caps) then [c] else []))
  }

  function SendAll(ws: seq<nat>, f: Frame): seq<Sent> {
    seq(|ws|, i requires 0 <= i < |ws| => Sent(ws[i], f))
  }

  /** An event broadcast to the consumers the routing rules admit. */
  function Deliver(s: HostState, from: Peer, m: Msg, now: nat): Outcome {
    var f := Offer(s, s.consumers, from, m, now);
    Outcome(s.(window := f.window), NOTHING.(wire := SendAll(f.recipients, Event(m)), judged := f.judged))
  }

  /* ---------- control ---------- */

  /** A result brought by any peer goes to whoever registered its id, if that socket is open. */
  function Settle(s: HostState, id: ControlId, m: Msg): Outcome {
    if id in s.pending && IsOpen(s.conns, s.pending[id].replyTo) then
      var to := s.pending[id].replyTo;
      Outcome(s.(pending := Without(s.pending, id)),
              NOTHING.(wire := [Sent(to, Answer(m))], ledger := [Answered(id, to)]))
    else Silent(s)
  }

  function ResultMsg(id: ControlId, ok: bool, payload: nat): Msg {
    Msg("control_result", "", id, 0, "", "", "", "",
        Rest("", "", "", [], None, "", ok, "", "", payload))
  }

  /** A bridge asks its consumers. */
  function BridgeRequest(s: HostState, ws: nat, m: Msg, now: nat): Outcome {
    var f := Offer(s, s.consumers, Ws(ws), m.(level := "info"), now);
    var s1 := s.(window := f.window);
    if f.recipients != [] then
      var p := Pending(ws, FromBridge);
      Outcome(s1.(pending := s1.pending[m.id := p]),
              NOTHING.(wire := SendAll(f.recipients, Frame.Request(m)), judged := f.judged,
                       ledger := [Registered(m.id, p)]))
    else
      Outcome(s1, NOTHING.(wire := Send(s.conns, ws, NoTarget(m.id)), judged := f.judged))
  }

  predicate TakesControl(s: HostState, p: Peer) {
    && (p.Ws? ==> IsOpen(s.conns, p.id))
    && HasCapability(Lookup(s.capabilities, p), "control")
  }

  function Targets(s: HostState): seq<Peer> {
    Filter(s.bridges, p => TakesControl(s, p))
  }

  /** WebSocket bridges get the request as a frame. */
  function RequestFrames(targets: seq<Peer>, m: Msg): seq<Sent> {
    if targets == [] then []
    else
      var n := |targets| - 1;
      RequestFrames(targets[..n], m) + (if targets[n].Ws? then [Sent(targets[n].id, Frame.Request(m))] else [])
  }

  /** HTTP bridges get it in the queue their next poll empties. */
  function RequestMail(targets: seq<Peer>, m: Msg): seq<Mail> {
    if targets == [] then []
    else
      var n := |targets| - 1;
      RequestMail(targets[..n], m) + (if targets[n].Http? then [Pushed(targets[n].sid, m)] else [])
  }

  function Queued(sessions: map<nat, Session>, targets: seq<Peer>, m: Msg): map<nat, Session> {
    map sid | sid in sessions ::
      if Http(sid) in targets then sessions[sid].(queue := sessions[sid].queue + [m]) else sessions[sid]
  }

  /** The id a consumer's request is filed under. */
  function RequestId(m: Msg, clientId: string, now: nat): ControlId {
    if m.id.Some? && m.id.value != "" then m.id else Some(clientId + "-" + Decimal(now))
  }

  /** A consumer asks every bridge that advertised control. */
  function ConsumerRequest(s: HostState, ws: nat, m: Msg, now: nat): Outcome {
    var id := RequestId(m, if ws in s.conns then s.conns[ws].clientId else "", now);
    var payload := m.(typ := "control_request", id := id);
    var targets := Targets(s);
    if targets == [] then Wire(s, Send(s.conns, ws, NoTarget(id)))
    else
      var p := Pending(ws, FromConsumer);
      Outcome(s.(pending := s.pending[id := p], sessions := Queued(s.sessions, targets, payload)),
              NOTHING.(wire := RequestFrames(targets, payload) + Send(s.conns, ws, Forwarded(id, |targets|)),
                       ledger := [Registered(id, p)],
                       mail := RequestMail(targets, payload)))
  }

  /* ---------- screenshots ---------- */

  const SCREENSHOT_RATE_LIMIT_MS := 2000

  // A recorded time of 0 would read as "never".
  predicate TooSoon(s: HostState, ws: nat, now: nat) {
    ws in s.lastShot && s.lastShot[ws] != 0 && now - s.lastShot[ws] < SCREENSHOT_RATE_LIMIT_MS
  }

  function Completed(m: Msg, now: nat): Msg {
    m.(timestamp := if m.timestamp == 0 then now else m.timestamp,
       platform := if m.platform == "" then "web" else m.platform,
       level := if m.level == "" then "info" else m.level,
       text := if m.text != "" then m.text
               else "Screenshot: " + (if m.rest.route != "" then m.rest.route
                                      else if m.rest.url != "" then m.rest.url else "unknown"))
  }

  /** What happens to a screenshot once its recipients are known. */
  function HandOver(s: HostState, rs: seq<nat>, ws: nat, m: Msg, now: nat): Outcome {
    if rs == [] then Wire(s, Send(s.conns, ws, Notice(NoConsumers)))
    else
      var stamped := s.(lastShot := s.lastShot[ws := now]);
      if m.mime == "" || m.data == "" then Wire(stamped, Send(s.conns, ws, Notice(InvalidFormat)))
      else Outcome(stamped, NOTHING.(wire := SendAll(rs, Event(Completed(m, now))), shots := [Shot(ws, now)]))
  }

  /** The attempt once it has passed the capability and rate checks. */
  function Forward(s: HostState, ws: nat, m: Msg, now: nat): Outcome {
    var f := Offer(s, s.consumers, Ws(ws), m, now);
    var o := HandOver(s.(window := f.window), f.recipients, ws, m, now);
    o.(log := o.log.(judged := f.judged))
  }

  function Screenshot(s: HostState, ws: nat, m: Msg, now: nat): Outcome {
    if Ws(ws) !in s.capabilities || "screenshot" !in s.capabilities[Ws(ws)] then
      Wire(s, Send(s.conns, ws, Notice(MissingCapability)))
    else if TooSoon(s, ws, now) then
      // A clock that stepped back only lengthens the wait.
      Wire(s, Send(s.conns, ws, Notice(RateLimit(SCREENSHOT_RATE_LIMIT_MS - (now - s.lastShot[ws])))))
    else Forward(s, ws, m, now)
  }

  /* ---------- WebSocket events ---------- */

  /** Gives a socket its role; one that is neither bridge nor consumer is closed. */
  function Enrol(s: HostState, ws: nat, role: string, clientId: string): Outcome
    requires ws in s.conns
  {
    var s1 := s.(conns := s.conns[ws := s.conns[ws].(role := Some(role), clientId := clientId)]);
    var ack := Send(s.conns, ws, AuthSuccess(role, clientId));
    if role == "bridge" then Wire(s1.(bridges := s1.bridges + [Ws(ws)]), ack)
    else if role == "consumer" then Wire(s1.(consumers := s1.consumers + [ws]), ack)
    else Silent(Close(s1, ws))
  }

  function Authenticate(s: HostState, secret: string, ws: nat, m: Msg, now: nat): Outcome
    requires ws in s.conns
  {
    if m.typ == "auth" && m.rest.secret == secret then
      var role := if m.rest.role == "" then "bridge" else m.rest.role;
      Enrol(s, ws, role, if m.rest.clientId == "" then role + "-" + Decimal(now) else m.rest.clientId)
    else Silent(Close(s, ws))
  }

  function BridgeFrame(s: HostState, ws: nat, m: Msg, now: nat): Outcome
    requires ws in s.conns
  {
    if m.typ == "hello" then
      Wire(s.(capabilities := s.capabilities[Ws(ws) := m.rest.capabilities]),
           Send(s.conns, ws, HelloAck(s.conns[ws].clientId)))
    else if m.typ == "control_result" then Settle(s, m.id, m)
    else if m.typ == "control_request" then BridgeRequest(s, ws, m, now)
    else if m.typ == "screenshot" then Screenshot(s, ws, m, now)
    else Deliver(s, Ws(ws), m, now)
  }

  function SubscriptionOf(m: Msg): Subscription {
    Subscription(if m.rest.levels.Some? then m.rest.levels.value else ["errors"],
                 m.rest.capabilities, ParseFilter(m.rest.llmFilter))
  }

  function ConsumerFrame(s: HostState, ws: nat, m: Msg, now: nat): Outcome
    requires ws in s.conns
  {
    if m.typ == "subscribe" then
      var sub := SubscriptionOf(m);
      Wire(s.(subscriptions := s.subscriptions[ws := sub]),
           Send(s.conns, ws, SubscribeAck(s.conns[ws].clientId, sub.levels, sub.caps, sub.filter)))
    else if m.typ == "control_request" || m.typ == "control" then ConsumerRequest(s, ws, m, now)
    else if m.typ == "control_result" then Settle(s, m.id, m)
    else Silent(s)
  }

  function OnMessage(s: HostState, secret: string, ws: nat, m: Msg, now: nat): Outcome
    requires ws in s.conns
  {
    if s.conns[ws].role.None? then Authenticate(s, secret, ws, m, now)
    else if m.typ == "ping" then Wire(s, Send(s.conns, ws, Pong))
    else if s.conns[ws].role == Some("bridge") then BridgeFrame(s, ws, m, now)
    else if s.conns[ws].role == Some("consumer") then ConsumerFrame(s, ws, m, now)
    else Silent(s)
  }

  function Abandoned(pending: map<ControlId, Pending>, ws: nat): set<ControlId> {
    set id | id in pending && pending[id].replyTo == ws
  }

  /** The close event: every table forgets the socket. */
  function OnClose(s: HostState, ws: nat): Outcome
    requires ws in s.conns
  {
    var role := s.conns[ws].role;
    var s1 := s.(conns := Without(s.conns, ws), pending := s.pending - Abandoned(s.pending, ws));
    var s2 :=
      if role == Some("bridge") then
        s1.(bridges := Remove(s.bridges, Ws(ws)), capabilities := Without(s.capabilities, Ws(ws)),
            lastShot := Without(s.lastShot, ws))
      else if role == Some("consumer") then
        s1.(consumers := Remove(s.consumers, ws), subscriptions := Without(s.subscriptions, ws))
      else s1;
    Outcome(s2, NOTHING.(ledger := [Dropped(Abandoned(s.pending, ws))]))
  }

  /* ---------- HTTP bridge ---------- */

  datatype HttpRequest =
    | Connect(bodySecret: string, headerSecret: string)
    | Hello(sid: nat, capabilities: seq<string>)
    | Events(sid: nat, events: seq<Msg>)
    | ControlResult(sid: nat, id: ControlId, ok: bool, payload: nat)
    | Poll(sid: nat)
    | Heartbeat(sid: nat)
    | Disconnect(sid: nat)
    | UnknownRoute
    | MalformedBody

  /** HEARTBEAT_STALE_MS: both the age a session may reach and the period of the pruning timer. */
  const STALE_MS := 15_000

  function Touch(s: HostState, sid: nat, now: nat): HostState
    requires sid in s.sessions
  {
    s.(sessions := s.sessions[sid := s.sessions[sid].(lastSeen := now)])
  }

  function RemoveSessions(s: HostState, gone: set<nat>): HostState {
    s.(sessions := s.sessions - gone,
       bridges := Filter(s.bridges, (p: Peer) => !(p.Http? && p.sid in gone)),
       capabilities := map p | p in s.capabilities && !(p.Http? && p.sid in gone) :: s.capabilities[p])
  }

  function Expired(s: HostState, now: nat): set<nat> {
    set sid | sid in s.sessions && now - s.sessions[sid].lastSeen > STALE_MS
  }

  function Defaulted(m: Msg, now: nat): Msg {
    m.(timestamp := if m.timestamp == 0 then now else m.timestamp,
       level := if m.level == "" then "info" else m.level,
       typ := if m.typ == "" then "log" else m.typ)
  }

  function DeliverAll(s: HostState, sid: nat, ms: seq<Msg>, now: nat): Outcome {
    if ms == [] then Silent(s)
    else
      var n := |ms| - 1;
      var before := DeliverAll(s, sid, ms[..n], now);
      var last := Deliver(before.state, Http(sid), Defaulted(ms[n], now), now);
      Outcome(last.state, Join(before.log, last.log))
  }

  function OnConnect(s: HostState, secret: string, bodySecret: string, headerSecret: string, now: nat): Outcome {
    if (if bodySecret != "" then bodySecret else headerSecret) != secret then Responds(s, Status(401))
    else
      var sid := s.nextSid;
      Responds(s.(nextSid := sid + 1, sessions := s.sessions[sid := Session([], now)],
                  bridges := s.bridges + [Http(sid)]),
               SessionCreated(sid))
  }

  function OnHttp(s: HostState, secret: string, r: HttpRequest, now: nat): Outcome {
    match r
    case Connect(bodySecret, headerSecret) => OnConnect(s, secret, bodySecret, headerSecret, now)
    case Disconnect(sid) =>
      Responds(if sid in s.sessions then RemoveSessions(s, {sid}) else s, Status(204))
    case UnknownRoute => Responds(s, Status(404))
    case MalformedBody => Responds(s, Status(500))
    case _ =>
      if r.sid !in s.sessions then Responds(s, Status(404)) else OnSession(Touch(s, r.sid, now), r, now)
  }

  function OnSession(s: HostState, r: HttpRequest, now: nat): Outcome
    requires r.Hello? || r.Events? || r.ControlResult? || r.Poll? || r.Heartbeat?
    requires r.sid in s.sessions
  {
    match r
    case Hello(sid, caps) =>
      Responds(s.(capabilities := s.capabilities[Http(sid) := caps]), HelloOk(sid))
    case Events(sid, ms) =>
      var o := DeliverAll(s, sid, ms, now);
      o.(log := o.log.(replies := [Status(204)]))
    case ControlResult(sid, id, ok, payload) =>
      var o := Settle(s, id, ResultMsg(id, ok, payload));
      o.(log := o.log.(replies := [Status(204)]))
    case Poll(sid) =>
      var q := s.sessions[sid].queue;
      Outcome(s.(sessions := s.sessions[sid := s.sessions[sid].(queue := [])]),
              NOTHING.(replies := [Commands(q)], mail := [Taken(sid, q)]))
    case Heartbeat(sid) => Responds(s, Status(204))
  }

  /* ---------- steps and runs ---------- */

  datatype Happening =
    | Connection
    | Message(ws: nat, m: Msg)
    | BadFrame(ws: nat)          // not JSON, or a handler threw: the socket is closed with 1011
    | AuthTimeout(ws: nat)
    | PeerClosing(ws: nat)       // the other side started the closing handshake
    | Closed(ws: nat)
    | HttpCall(r: HttpRequest)
    | PruneTick

  datatype Input = Input(now: nat, what: Happening)

  function Step(s: HostState, secret: string, e: Input): Outcome {
    match e.what
    case Connection =>
      Silent(s.(conns := s.conns[s.nextConn := Conn(true, None, "")], nextConn := s.nextConn + 1))
    case Message(ws, m) => if ws in s.conns then OnMessage(s, secret, ws, m, e.now) else Silent(s)
    case BadFrame(ws) => Silent(Close(s, ws))
    case AuthTimeout(ws) => Silent(if ws in s.conns && s.conns[ws].role.None? then Close(s, ws) else s)
    case PeerClosing(ws) => Silent(Close(s, ws))
    case Closed(ws) => if ws in s.conns then OnClose(s, ws) else Silent(s)
    case HttpCall(r) => OnHttp(s, secret, r, e.now)
    case PruneTick => Silent(RemoveSessions(s, Expired(s, e.now)))
  }

  function Run(s: HostState, secret: string, es: seq<Input>): Outcome {
    if es == [] then Silent(s)
    else
      var n := |es| - 1;
      var before := Run(s, secret, es[..n]);
      var last := Step(before.state, secret, es[n]);
      Outcome(last.state, Join(before.log, last.log))
  }

  /** The clock never runs backwards. */
  ghost predicate InOrder(start: nat, es: seq<Input>) {
    && (forall i :: 0 <= i < |es| ==> start <= es[i].now)
    && (forall i, j :: 0 <= i < j < |es| ==> es[i].now <= es[j].now)
  }

  lemma SendAllSnoc(cs: seq<nat>, c: nat, f: Frame)
    ensures SendAll(cs + [c], f) == SendAll(cs, f) + [Sent(c, f)]
    ensures cs + [] == cs
  {
  }

  /* ---------- which tables a handler may change ---------- */

  lemma SettleChanges(s: HostState, id: ControlId, m: Msg)
    ensures var o := Settle(s, id, m);
      o.state == s.(pending := o.state.pending) && o.log == NOTHING.(wire := o.log.wire, ledger := o.log.ledger)
  {
  }

  lemma BridgeRequestChanges(s: HostState, ws: nat, m: Msg, now: nat)
    ensures var o := BridgeRequest(s, ws, m, now);
      && o.state == s.(pending := o.state.pending, window := o.state.window)
      && o.log == NOTHING.(wire := o.log.wire, ledger := o.log.ledger, judged := o.log.judged)
  {
  }

  lemma ScreenshotChanges(s: HostState, ws: nat, m: Msg, now: nat)
    ensures var o := Screenshot(s, ws, m, now);
      && o.state == s.(lastShot := o.state.lastShot, window := o.state.window)
      && o.log == NOTHING.(wire := o.log.wire, shots := o.log.shots, judged := o.log.judged)
  {
  }

  /** A bridge's frame changes at most its capabilities, the pending table, the window and its screenshot stamp. */
  lemma BridgeFrameChanges(s: HostState, ws: nat, m: Msg, now: nat)
    requires ws in s.conns
    ensures var o := BridgeFrame(s, ws, m, now);
      && o.state == s.(capabilities := o.state.capabilities, pending := o.state.pending,
                       lastShot := o.state.lastShot, window := o.state.window)
      && o.log.mail == [] && o.log.replies == []
      && (m.typ != "screenshot" ==> o.state.lastShot == s.lastShot && o.log.shots == [])
  {
    if m.typ == "hello" {
    } else if m.typ == "control_result" {
      SettleChanges(s, m.id, m);
    } else if m.typ == "control_request" {
      BridgeRequestChanges(s, ws, m, now);
    } else if m.typ == "screenshot" {
      ScreenshotChanges(s, ws, m, now);
    }
  }

  /** Only hello changes capabilities, and only those of its sender. */
  lemma OnlyHelloAdvertises(s: HostState, ws: nat, m: Msg, now: nat)
    requires ws in s.conns
    ensures var t := BridgeFrame(s, ws, m, now).state;
      if m.typ == "hello" then
        && Lookup(t.capabilities, Ws(ws)) == Some(m.rest.capabilities)
        && forall p :: p != Ws(ws) ==> Lookup(t.capabilities, p) == Lookup(s.capabilities, p)
      else t.capabilities == s.capabilities
  {
    if m.typ == "hello" {
    } else if m.typ == "control_result" {
      SettleChanges(s, m.id, m);
    } else if m.typ == "control_request" {
      BridgeRequestChanges(s, ws, m, now);
    } else if m.typ == "screenshot" {
      ScreenshotChanges(s, ws, m, now);
    }
  }

  lemma QueuedKeys(sessions: map<nat, Session>, targets: seq<Peer>, m: Msg)
    ensures Queued(sessions, targets, m).Keys == sessions.Keys
  {
  }

  lemma ConsumerRequestChanges(s: HostState, ws: nat, m: Msg, now: nat)
    ensures var o := ConsumerRequest(s, ws, m, now);
      && o.state == s.(pending := o.state.pending, sessions := o.state.sessions)
      && o.state.sessions.Keys == s.sessions.Keys
      && o.log == NOTHING.(wire := o.log.wire, ledger := o.log.ledger, mail := o.log.mail)
  {
    var id := RequestId(m, if ws in s.conns then s.conns[ws].clientId else "", now);
    QueuedKeys(s.sessions, Targets(s), m.(typ := "control_request", id := id));
  }

  /** A consumer's frame changes at most its own subscription, the pending table and the HTTP queues. */
  lemma ConsumerFrameChanges(s: HostState, ws: nat, m: Msg, now: nat)
    requires ws in s.conns
    ensures var o := ConsumerFrame(s, ws, m, now);
      && o.state == s.(subscriptions := o.state.subscriptions, pending := o.state.pending, sessions := o.state.sessions)
      && o.log.judged == [] && o.log.shots == [] && o.log.replies == []
      && o.state.sessions.Keys == s.sessions.Keys
      && (m.typ != "subscribe" ==> o.state.subscriptions == s.subscriptions)
      && (m.typ == "subscribe" ==> o.state.subscriptions == s.subscriptions[ws := SubscriptionOf(m)])
      && (m.typ != "control_request" && m.typ != "control" ==> o.state.sessions == s.sessions && o.log.mail == [])
  {
    if m.typ == "subscribe" {
      assert m.typ != "control_request" && m.typ != "control";
    } else if m.typ == "control_request" || m.typ == "control" {
      ConsumerRequestChanges(s, ws, m, now);
    } else {
      SettleChanges(s, m.id, m);
    }
  }

  /** Only the record of who is connected as what differs. */
  predicate OnlyIdentities(s: HostState, t: HostState) {
    t == s.(conns := t.conns, bridges := t.bridges, consumers := t.consumers) && t.conns.Keys == s.conns.Keys
  }

  lemma IdentityChanges(s: HostState, ws: nat, c: Conn, bridges: seq<Peer>, consumers: seq<nat>)
    requires ws in s.conns
    ensures OnlyIdentities(s, s.(conns := s.conns[ws := c], bridges := bridges, consumers := consumers))
  {
    assert s.conns[ws := c].Keys == s.conns.Keys;
  }

  lemma EnrolChanges(s: HostState, ws: nat, role: string, clientId: string)
    requires ws in s.conns
    ensures var o := Enrol(s, ws, role, clientId);
      OnlyIdentities(s, o.state) && o.log == NOTHING.(wire := o.log.wire)
  {
    var c := s.conns[ws].(role := Some(role), clientId := clientId);
    if role == "bridge" {
      IdentityChanges(s, ws, c, s.bridges + [Ws(ws)], s.consumers);
    } else if role == "consumer" {
      IdentityChanges(s, ws, c, s.bridges, s.consumers + [ws]);
    } else {
      IdentityChanges(s, ws, c.(open := false), s.bridges, s.consumers);
      assert s.conns[ws := c][ws := c.(open := false)] == s.conns[ws := c.(open := false)];
    }
  }

  lemma AuthenticateChanges(s: HostState, secret: string, ws: nat, m: Msg, now: nat)
    requires ws in s.conns
    ensures var o := Authenticate(s, secret, ws, m, now);
      OnlyIdentities(s, o.state) && o.log == NOTHING.(wire := o.log.wire)
  {
    if m.typ == "auth" && m.rest.secret == secret {
      var role := if m.rest.role == "" then "bridge" else m.rest.role;
      EnrolChanges(s, ws, role, if m.rest.clientId == "" then role + "-" + Decimal(now) else m.rest.clientId);
    } else {
      IdentityChanges(s, ws, s.conns[ws].(open := false), s.bridges, s.consumers);
    }
  }

  lemma CloseChanges(s: HostState, ws: nat)
    ensures var t := Close(s, ws); t == s.(conns := t.conns) && t.conns.Keys == s.conns.Keys
  {
    assert ws in s.conns ==> Close(s, ws).conns.Keys == s.conns.Keys + {ws};
  }
}
