/** What the host says back to whoever addressed it, and which sockets it gives up. */
module HostReplies {
  import opened Common
  import opened Routing
  import opened HostModel
  import opened HostCoherence
  import opened HostFanOut
  import opened HostStreams
  import opened HostControl
  import opened HostScreenshots

  /* ---------- acknowledgements and refusals ---------- */

  predicate IsAck(x: Sent) {
    x.frame.AuthSuccess? || x.frame.Pong? || x.frame.HelloAck? || x.frame.SubscribeAck? || x.frame.Notice?
  }

  function Acks(wire: seq<Sent>): seq<Sent> {
    Filter(wire, x => IsAck(x))
  }

  /** A first frame that lets its socket in. */
  predicate Accepted(m: Msg, secret: string) {
    m.typ == "auth" && m.rest.secret == secret && m.rest.role in {"", "bridge", "consumer"}
  }

  /** The role and name a socket is given: a bridge unless it says otherwise, named by role and time unless named. */
  function Identity(m: Msg, now: nat): (string, string) {
    var role := if m.rest.role == "consumer" then "consumer" else "bridge";
    (role, if m.rest.clientId == "" then role + "-" + Decimal(now) else m.rest.clientId)
  }

  /** Why a screenshot goes no further, in the order in which the reasons are looked for. */
  ghost function Refusal(s: HostState, ws: nat, m: Msg, now: nat): Option<NoticeReason> {
    if !(Ws(ws) in s.capabilities && "screenshot" in s.capabilities[Ws(ws)]) then Some(MissingCapability)
    else if ws in s.lastShot && 0 < s.lastShot[ws] && now < s.lastShot[ws] + 2000 then
      Some(RateLimit(s.lastShot[ws] + 2000 - now))
    else if !Interesting(s, ws, m, now) then Some(NoConsumers)
    else if m.mime == "" || m.data == "" then Some(InvalidFormat)
    else None
  }

  /** What the sender of a frame is told at once. */
  ghost function Due(s: HostState, secret: string, ws: nat, m: Msg, now: nat): Option<Frame>
    requires ws in s.conns
  {
    var conn := s.conns[ws];
    if conn.role == None then
      if Accepted(m, secret) then Some(AuthSuccess(Identity(m, now).0, Identity(m, now).1)) else None
    else if m.typ == "ping" then Some(Pong)
    else if conn.role == Some("bridge") && m.typ == "hello" then Some(HelloAck(conn.clientId))
    else if conn.role == Some("bridge") && m.typ == "screenshot" then
      if Refusal(s, ws, m, now).Some? then Some(Notice(Refusal(s, ws, m, now).value)) else None
    else if conn.role == Some("consumer") && m.typ == "subscribe" then
      var levels := if m.rest.levels == None then ["errors"] else m.rest.levels.value;
      var filter := if Lower(m.rest.llmFilter) == "aggressive" then Aggressive
                    else if Lower(m.rest.llmFilter) == "minimal" then Minimal else Off;
      Some(SubscribeAck(conn.clientId, levels, m.rest.capabilities, filter))
    else None
  }

  ghost function DueTo(s: HostState, secret: string, e: Input): seq<Sent> {
    if e.what.Message? && IsOpen(s.conns, e.what.ws) && Due(s, secret, e.what.ws, e.what.m, e.now).Some? then
      [Sent(e.what.ws, Due(s, secret, e.what.ws, e.what.m, e.now).value)]
    else []
  }

  lemma {:induction false} NoAcks(wire: seq<Sent>)
    requires forall x :: x in wire ==> !IsAck(x)
    ensures Acks(wire) == []
  {
    if wire != [] {
      NoAcks(wire[..|wire| - 1]);
      assert wire[|wire| - 1] in wire;
      assert Filter(wire[..|wire| - 1], x => IsAck(x)) == Acks(wire[..|wire| - 1]);
    }
  }

  lemma OneAck(x: Sent)
    ensures Acks([x]) == if IsAck(x) then [x] else []
  {
    assert [x][..0] == [];
    assert Filter([x], y => IsAck(y)) == Filter([x][..0], y => IsAck(y)) + (if IsAck(x) then [x] else []);
  }

  /** The wire of a step that speaks to its sender only, or to nobody. */
  lemma AcksOfSend(s: HostState, ws: nat, f: Frame)
    ensures Acks(Send(s.conns, ws, f)) == if IsOpen(s.conns, ws) && IsAck(Sent(ws, f)) then [Sent(ws, f)] else []
  {
    OneAck(Sent(ws, f));
    NoAcks([]);
  }

  lemma AcksOfAuthentication(s: HostState, secret: string, ws: nat, m: Msg, now: nat)
    requires ws in s.conns && s.conns[ws].role.None?
    ensures Acks(Authenticate(s, secret, ws, m, now).log.wire) == DueTo(s, secret, Input(now, Message(ws, m)))
  {
    assert "bridge"[0] != "consumer"[0];
    AcksOfSend(s, ws, AuthSuccess(Identity(m, now).0, Identity(m, now).1));
    NoAcks([]);
  }

  /** A refused screenshot is answered with the reason and goes nowhere; any other is sent on and not answered. */
  lemma ScreenshotAnswer(s: HostState, ws: nat, m: Msg, now: nat)
    requires Coherent(s)
    ensures var wire, r := Screenshot(s, ws, m, now).log.wire, Refusal(s, ws, m, now);
      if r.Some? then wire == Send(s.conns, ws, Notice(r.value)) else forall x :: x in wire ==> x.frame.Event?
  {
    InterestingExactly(s, ws, m, now);
    RefusalByRecipients(s, ws, m, now);
    if Refusal(s, ws, m, now).None? {
      ScreenshotWire(s, ws, m, now);
    }
  }

  lemma RefusalByRecipients(s: HostState, ws: nat, m: Msg, now: nat)
    requires Interesting(s, ws, m, now) <==> Offer(s, s.consumers, Ws(ws), m, now).recipients != []
    ensures Refusal(s, ws, m, now).Some? ==>
              Screenshot(s, ws, m, now).log.wire == Send(s.conns, ws, Notice(Refusal(s, ws, m, now).value))
    ensures Refusal(s, ws, m, now).None? ==>
              Acceptable(s, ws, m, now) && Offer(s, s.consumers, Ws(ws), m, now).recipients != []
  {
  }

  lemma AcksOfScreenshot(s: HostState, ws: nat, m: Msg, now: nat)
    requires Coherent(s)
    ensures Acks(Screenshot(s, ws, m, now).log.wire) ==
            if IsOpen(s.conns, ws) && Refusal(s, ws, m, now).Some?
            then [Sent(ws, Notice(Refusal(s, ws, m, now).value))] else []
  {
    var o, r := Screenshot(s, ws, m, now), Refusal(s, ws, m, now);
    ScreenshotAnswer(s, ws, m, now);
    if r.Some? {
      AcksOfSend(s, ws, Notice(r.value));
    } else {
      NoAcks(o.log.wire);
    }
  }

  /** What is due to a bridge, by the type of its frame. */
  lemma DueToBridge(s: HostState, secret: string, ws: nat, m: Msg, now: nat)
    requires HasRole(s.conns, ws, "bridge") && m.typ != "ping"
    ensures DueTo(s, secret, Input(now, Message(ws, m))) ==
            if !IsOpen(s.conns, ws) then []
            else if m.typ == "hello" then [Sent(ws, HelloAck(s.conns[ws].clientId))]
            else if m.typ == "screenshot" && Refusal(s, ws, m, now).Some?
            then [Sent(ws, Notice(Refusal(s, ws, m, now).value))]
            else []
  {
    assert "bridge"[0] != "consumer"[0];
  }

  lemma QuietBridgeFrames(s: HostState, ws: nat, m: Msg, now: nat)
    requires ws in s.conns && m.typ != "hello" && m.typ != "screenshot"
    ensures forall x :: x in BridgeFrame(s, ws, m, now).log.wire ==> !IsAck(x)
  {
  }

  lemma AcksOfBridgeFrame(s: HostState, secret: string, ws: nat, m: Msg, now: nat)
    requires Coherent(s) && HasRole(s.conns, ws, "bridge") && m.typ != "ping"
    ensures Acks(BridgeFrame(s, ws, m, now).log.wire) == DueTo(s, secret, Input(now, Message(ws, m)))
  {
    DueToBridge(s, secret, ws, m, now);
    if m.typ == "hello" {
      AcksOfSend(s, ws, HelloAck(s.conns[ws].clientId));
    } else if m.typ == "screenshot" {
      assert "hello"[0] == 'h' && "screenshot"[0] == 's' && "control_result"[0] == 'c' && "control_request"[0] == 'c';
      AcksOfScreenshot(s, ws, m, now);
    } else {
      QuietBridgeFrames(s, ws, m, now);
      NoAcks(BridgeFrame(s, ws, m, now).log.wire);
    }
  }

  lemma DueToConsumer(s: HostState, secret: string, ws: nat, m: Msg, now: nat)
    requires HasRole(s.conns, ws, "consumer") && m.typ != "ping"
    ensures var sub := SubscriptionOf(m);
      DueTo(s, secret, Input(now, Message(ws, m))) ==
      if IsOpen(s.conns, ws) && m.typ == "subscribe"
      then [Sent(ws, SubscribeAck(s.conns[ws].clientId, sub.levels, sub.caps, sub.filter))] else []
  {
    assert "bridge"[0] != "consumer"[0] && "minimal"[0] == 'm' && "aggressive"[0] == 'a';
  }

  lemma QuietConsumerFrames(s: HostState, ws: nat, m: Msg, now: nat)
    requires ws in s.conns && m.typ != "subscribe"
    ensures forall x :: x in ConsumerFrame(s, ws, m, now).log.wire ==> !IsAck(x)
  {
    var id := RequestId(m, s.conns[ws].clientId, now);
    RequestFramesNoEvents(Targets(s), m.(typ := "control_request", id := id));
  }

  lemma AcksOfConsumerFrame(s: HostState, secret: string, ws: nat, m: Msg, now: nat)
    requires HasRole(s.conns, ws, "consumer") && m.typ != "ping"
    ensures Acks(ConsumerFrame(s, ws, m, now).log.wire) == DueTo(s, secret, Input(now, Message(ws, m)))
  {
    DueToConsumer(s, secret, ws, m, now);
    if m.typ == "subscribe" {
      var sub := SubscriptionOf(m);
      AcksOfSend(s, ws, SubscribeAck(s.conns[ws].clientId, sub.levels, sub.caps, sub.filter));
    } else {
      QuietConsumerFrames(s, ws, m, now);
      NoAcks(ConsumerFrame(s, ws, m, now).log.wire);
    }
  }

  lemma AcksOfFrame(s: HostState, secret: string, ws: nat, m: Msg, now: nat)
    requires Coherent(s) && ws in s.conns
    ensures Acks(OnMessage(s, secret, ws, m, now).log.wire) == DueTo(s, secret, Input(now, Message(ws, m)))
  {
    if s.conns[ws].role.None? {
      AcksOfAuthentication(s, secret, ws, m, now);
    } else if m.typ == "ping" {
      AcksOfSend(s, ws, Pong);
    } else if s.conns[ws].role == Some("bridge") {
      AcksOfBridgeFrame(s, secret, ws, m, now);
    } else if s.conns[ws].role == Some("consumer") {
      AcksOfConsumerFrame(s, secret, ws, m, now);
    } else {
      NoAcks([]);
    }
  }

  /** Whatever happens, exactly the frame's own sender is told exactly what is due. */
  lemma StepAcks(s: HostState, secret: string, e: Input)
    requires Coherent(s)
    ensures Acks(Step(s, secret, e).log.wire) == DueTo(s, secret, e)
  {
    NoAcks([]);
    match e.what
    case Message(ws, m) => if ws in s.conns { AcksOfFrame(s, secret, ws, m, e.now); }
    case HttpCall(r) =>
      if r.Events? && r.sid in s.sessions {
        DeliverAllFrames(Touch(s, r.sid, e.now), r.sid, r.events, e.now);
      }
      NoAcks(Step(s, secret, e).log.wire);
    case _ =>
  }

  ghost function AllDue(s: HostState, secret: string, es: seq<Input>): seq<Sent> {
    if es == [] then []
    else
      var n := |es| - 1;
      AllDue(s, secret, es[..n]) + DueTo(Run(s, secret, es[..n]).state, secret, es[n])
  }

  /**
   Over every run: the acknowledgements and refusals sent are those due, one per frame that calls for one,
   in the order of the frames. So every ping of a peer that got in has its pong, and there is no other.
   */
  lemma {:induction false} AcksExactly(s: HostState, secret: string, es: seq<Input>)
    requires Coherent(s)
    ensures Acks(Run(s, secret, es).log.wire) == AllDue(s, secret, es)
  {
    if es == [] {
      NoAcks([]);
    } else {
      var n := |es| - 1;
      var before := Run(s, secret, es[..n]);
      AcksExactly(s, secret, es[..n]);
      RunCoherent(s, secret, es[..n]);
      StepAcks(before.state, secret, es[n]);
      FilterConcat(before.log.wire, Step(before.state, secret, es[n]).log.wire, x => IsAck(x));
    }
  }

  /** The record of a socket after what may be its first frame. */
  predicate RecordedAs(c: Conn, c': Conn, identity: Option<(string, string)>) {
    if c.role.None? && identity.Some? then c' == Conn(c.open, Some(identity.value.0), identity.value.1)
    else c.role.Some? ==> c'.role == c.role && c'.clientId == c.clientId
  }

  function Told(secret: string, e: Input, ws: nat): Option<(string, string)> {
    if e.what.Message? && e.what.ws == ws && Accepted(e.what.m, secret) then Some(Identity(e.what.m, e.now)) else None
  }

  lemma AuthenticationRecords(s: HostState, secret: string, src: nat, m: Msg, now: nat, ws: nat)
    requires src in s.conns && s.conns[src].role.None? && ws in s.conns
    ensures var t := Authenticate(s, secret, src, m, now).state;
      ws in t.conns && RecordedAs(s.conns[ws], t.conns[ws], Told(secret, Input(now, Message(src, m)), ws))
  {
    var (role, clientId) := Identity(m, now);
    if Accepted(m, secret) {
      EnrolRecords(s, src, role, clientId);
      assert Authenticate(s, secret, src, m, now) == Enrol(s, src, role, clientId);
    } else {
      var c := AuthenticateWrites(s, secret, src, m, now);
    }
  }

  lemma EnrolRecords(s: HostState, src: nat, role: string, clientId: string)
    requires src in s.conns && role in {"bridge", "consumer"}
    ensures Enrol(s, src, role, clientId).state.conns == s.conns[src := Conn(s.conns[src].open, Some(role), clientId)]
  {
  }

  lemma ClosingRecords(s: HostState, src: nat, ws: nat)
    requires ws in s.conns
    ensures ws in Close(s, src).conns && RecordedAs(s.conns[ws], Close(s, src).conns[ws], None)
  {
  }

  /** A socket has the role and the name it was told, and keeps both until it is closed. */
  lemma ToldWhatIsRecorded(s: HostState, secret: string, e: Input, ws: nat)
    requires Coherent(s) && ws in s.conns && ws in Step(s, secret, e).state.conns
    ensures RecordedAs(s.conns[ws], Step(s, secret, e).state.conns[ws], Told(secret, e, ws))
  {
    match e.what
    case Message(src, m) =>
      if src in s.conns && s.conns[src].role.Some? {
        LaterFramesKeepConns(s, secret, src, m, e.now);
      } else if src in s.conns {
        AuthenticationRecords(s, secret, src, m, e.now, ws);
      }
    case HttpCall(r) => HttpKeepsConns(s, secret, r, e.now);
    case Connection => assert s.nextConn !in s.conns;
    case Closed(src) => if src in s.conns { CloseGrantsNothing(s, src, ws); }
    case PruneTick => RemovalForgets(s, Expired(s, e.now));
    case BadFrame(src) => ClosingRecords(s, src, ws);
    case AuthTimeout(src) => ClosingRecords(s, src, ws);
    case PeerClosing(src) => ClosingRecords(s, src, ws);
  }

  /* ---------- status codes ---------- */

  function Code(r: Reply): int {
    match r case Status(code) => code case _ => 200
  }

  /** The secret in the body goes before the one in the header. */
  predicate Knows(bodySecret: string, headerSecret: string, secret: string) {
    secret == if bodySecret != "" then bodySecret else headerSecret
  }

  function DueCode(s: HostState, secret: string, r: HttpRequest): int {
    match r
    case Connect(bodySecret, headerSecret) => if Knows(bodySecret, headerSecret, secret) then 200 else 401
    case UnknownRoute => 404
    case MalformedBody => 500
    case Disconnect(_) => 204
    case _ => if r.sid !in s.sessions then 404 else if r.Hello? || r.Poll? then 200 else 204
  }

  function Codes(rs: seq<Reply>): seq<int> {
    seq(|rs|, i requires 0 <= i < |rs| => Code(rs[i]))
  }

  function DueCodes(s: HostState, secret: string, es: seq<Input>): seq<int> {
    if es == [] then []
    else
      var n := |es| - 1;
      DueCodes(s, secret, es[..n]) +
      (if es[n].what.HttpCall? then [DueCode(Run(s, secret, es[..n]).state, secret, es[n].what.r)] else [])
  }

  lemma OneReply(s: HostState, secret: string, e: Input)
    ensures Codes(Step(s, secret, e).log.replies) == if e.what.HttpCall? then [DueCode(s, secret, e.what.r)] else []
  {
    match e.what
    case Message(ws, m) => if ws in s.conns { FramesGetNoReply(s, secret, ws, m, e.now); }
    case HttpCall(r) => OneReplyPerCall(s, secret, r, e.now);
    case _ =>
  }

  lemma FramesGetNoReply(s: HostState, secret: string, ws: nat, m: Msg, now: nat)
    requires ws in s.conns
    ensures OnMessage(s, secret, ws, m, now).log.replies == []
  {
    if s.conns[ws].role.None? {
      AuthenticateChanges(s, secret, ws, m, now);
    } else if m.typ == "ping" {
    } else if s.conns[ws].role == Some("bridge") {
      BridgeFrameChanges(s, ws, m, now);
    } else if s.conns[ws].role == Some("consumer") {
      ConsumerFrameChanges(s, ws, m, now);
    }
  }

  lemma OneReplyPerCall(s: HostState, secret: string, r: HttpRequest, now: nat)
    ensures Codes(OnHttp(s, secret, r, now).log.replies) == [DueCode(s, secret, r)]
  {
  }

  /** Over every run: one reply per request, in order, with the status code that is due. */
  lemma {:induction false} RepliesExactly(s: HostState, secret: string, es: seq<Input>)
    ensures Codes(Run(s, secret, es).log.replies) == DueCodes(s, secret, es)
  {
    if es != [] {
      var n := |es| - 1;
      var before := Run(s, secret, es[..n]);
      var last := Step(before.state, secret, es[n]);
      RepliesExactly(s, secret, es[..n]);
      OneReply(before.state, secret, es[n]);
      CodesConcat(before.log.replies, last.log.replies);
    }
  }

  lemma CodesConcat(a: seq<Reply>, b: seq<Reply>)
    ensures Codes(a + b) == Codes(a) + Codes(b)
  {
  }

  /* ---------- which sockets are given up ---------- */

  /** What ends an open socket: its own close or fault, or not getting in with the first frame or in time. */
  predicate Shuts(s: HostState, secret: string, e: Input, ws: nat)
    requires ws in s.conns
  {
    match e.what
    case BadFrame(w) => w == ws
    case PeerClosing(w) => w == ws
    case Closed(w) => w == ws
    case AuthTimeout(w) => w == ws && s.conns[ws].role == None
    case Message(w, m) => w == ws && s.conns[ws].role == None && !Accepted(m, secret)
    case _ => false
  }

  lemma SocketEndsExactly(s: HostState, secret: string, e: Input, ws: nat)
    requires Coherent(s) && IsOpen(s.conns, ws)
    ensures IsOpen(Step(s, secret, e).state.conns, ws) <==> !Shuts(s, secret, e, ws)
  {
    match e.what
    case Message(src, m) =>
      if src in s.conns && s.conns[src].role.Some? {
        LaterFramesKeepConns(s, secret, src, m, e.now);
      } else if src in s.conns {
        FirstFrameShuts(s, secret, src, m, e.now, ws);
      }
    case HttpCall(r) => HttpKeepsConns(s, secret, r, e.now);
    case _ => TimerShuts(s, secret, e, ws);
  }

  lemma TimerShuts(s: HostState, secret: string, e: Input, ws: nat)
    requires Coherent(s) && IsOpen(s.conns, ws) && !e.what.Message? && !e.what.HttpCall?
    ensures IsOpen(Step(s, secret, e).state.conns, ws) <==> !Shuts(s, secret, e, ws)
  {
    match e.what
    case Connection => assert s.nextConn !in s.conns;
    case Closed(src) => if src in s.conns { CloseIsForget(s, src); }
    case PruneTick => assert Step(s, secret, e).state.conns == s.conns;
    case _ =>
  }

  lemma FirstFrameShuts(s: HostState, secret: string, src: nat, m: Msg, now: nat, ws: nat)
    requires src in s.conns && IsOpen(s.conns, ws)
    ensures IsOpen(Authenticate(s, secret, src, m, now).state.conns, ws) <==> ws != src || Accepted(m, secret)
  {
  }

  /** Sockets come from new connections only: open, without a role, and numbered afresh. */
  lemma SocketsComeFromConnections(s: HostState, secret: string, e: Input, ws: nat)
    requires Coherent(s) && ws !in s.conns
    ensures ws in Step(s, secret, e).state.conns <==> e.what.Connection? && ws == s.nextConn
    ensures ws in Step(s, secret, e).state.conns ==> Step(s, secret, e).state.conns[ws] == Conn(true, None, "")
  {
    match e.what
    case Message(src, m) =>
      if src in s.conns && s.conns[src].role.Some? {
        LaterFramesKeepConns(s, secret, src, m, e.now);
      } else if src in s.conns {
        AuthenticateChanges(s, secret, src, m, e.now);
      }
    case HttpCall(r) => HttpKeepsConns(s, secret, r, e.now);
    case Connection =>
    case _ => TimersAddNoSocket(s, secret, e, ws);
  }

  lemma TimersAddNoSocket(s: HostState, secret: string, e: Input, ws: nat)
    requires Coherent(s) && ws !in s.conns
    requires !e.what.Message? && !e.what.HttpCall? && !e.what.Connection?
    ensures ws !in Step(s, secret, e).state.conns
  {
    match e.what
    case Closed(src) => if src in s.conns { CloseIsForget(s, src); }
    case PruneTick => assert Step(s, secret, e).state.conns == s.conns;
    case _ =>
  }
}
