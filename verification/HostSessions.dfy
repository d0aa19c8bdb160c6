/** HTTP bridges: the control queue is exactly-once FIFO, and sessions expire exactly when they fall silent. */
module HostSessions {
  import opened Common
  import opened Routing
  import opened HostModel
  import opened HostCoherence
  import opened HostFanOut
  import opened HostControl

  /* ---------- a consumer's request reaches every control-capable bridge ---------- */

  lemma {:induction false} FramesAndMail(ts: seq<Peer>, m: Msg)
    ensures |RequestFrames(ts, m)| + |RequestMail(ts, m)| == |ts|
    ensures forall ws :: Sent(ws, Frame.Request(m)) in RequestFrames(ts, m) <==> Ws(ws) in ts
    ensures forall sid :: Pushed(sid, m) in RequestMail(ts, m) <==> Http(sid) in ts
    ensures forall x :: x in RequestMail(ts, m) ==> x.Pushed? && x.m == m
  {
    if ts != [] {
      var n := |ts| - 1;
      FramesAndMail(ts[..n], m);
      assert ts == ts[..n] + [ts[n]];
    }
  }

  lemma TargetsAreCapable(s: HostState)
    requires Coherent(s)
    ensures NoDup(Targets(s)) && forall p :: p in Targets(s) <==> p in s.bridges && TakesControl(s, p)
  {
    FilterMembers(s.bridges, p => TakesControl(s, p));
    FilterNoDup(s.bridges, p => TakesControl(s, p));
  }

  /** Bridges whose hello listed control, in whatever case; a WebSocket one has to be open. */
  function Capable(s: HostState): set<Peer> {
    set p | p in s.bridges && (p.Ws? ==> IsOpen(s.conns, p.id)) &&
            p in s.capabilities && Lists(s.capabilities[p], "control")
  }

  lemma CapableAreTargets(s: HostState)
    requires Coherent(s)
    ensures NoDup(Targets(s)) && |Targets(s)| == |Capable(s)| && forall p :: p in Targets(s) <==> p in Capable(s)
  {
    TargetsAreCapable(s);
    forall p | p in s.bridges
      ensures TakesControl(s, p) <==> p in Capable(s)
    {
      HasExactly(Lookup(s.capabilities, p), "control");
    }
    DistinctCardinality(Targets(s), Capable(s));
  }

  /** As many copies as bridges, and one for each of them. */
  ghost predicate OneCopyEach(frames: seq<Sent>, mail: seq<Mail>, to: set<Peer>, payload: Msg) {
    && |frames| + |mail| == |to|
    && (forall x :: x in frames ==> x.frame == Frame.Request(payload))
    && (forall x :: x in mail ==> x.Pushed? && x.m == payload)
    && (forall w :: Sent(w, Frame.Request(payload)) in frames <==> Ws(w) in to)
    && (forall sid :: Pushed(sid, payload) in mail <==> Http(sid) in to)
  }

  /* ---------- the id a request is known by ---------- */

  predicate IsNumeral(digits: string) {
    digits != [] && (|digits| > 1 ==> digits[0] != '0') && forall i :: 0 <= i < |digits| ==> '0' <= digits[i] <= '9'
  }

  function Value(digits: string): nat
    requires forall i :: 0 <= i < |digits| ==> '0' <= digits[i] <= '9'
  {
    if digits == [] then 0
    else
      var n := |digits| - 1;
      10 * Value(digits[..n]) + (digits[n] as nat - '0' as nat)
  }

  /** The decimal form of a number reads back as that number. */
  lemma {:induction false} DecimalReadsBack(n: nat)
    ensures IsNumeral(Decimal(n)) && Value(Decimal(n)) == n
    ensures n > 0 ==> Decimal(n)[0] != '0'
  {
    if n < 10 {
      assert Decimal(n)[..0] == [];
      assert Value(Decimal(n)) == 10 * Value([]) + (Digit(n) as nat - '0' as nat);
    } else {
      DecimalReadsBack(n / 10);
      assert Decimal(n)[..|Decimal(n)| - 1] == Decimal(n / 10);
    }
  }

  /** The consumer's own id, if it gave one; otherwise its client id and the time, in decimal. */
  ghost predicate KnownBy(id: ControlId, m: Msg, clientId: string, now: nat) {
    if m.id.Some? && m.id.value != "" then id == m.id
    else exists time :: IsNumeral(time) && Value(time) == now && id == Some(clientId + "-" + time)
  }

  lemma RequestIdIsKnown(m: Msg, clientId: string, now: nat)
    ensures KnownBy(RequestId(m, clientId, now), m, clientId, now)
  {
    DecimalReadsBack(now);
  }

  predicate Asks(s: HostState, ws: nat, m: Msg) {
    HasRole(s.conns, ws, "consumer") && (m.typ == "control_request" || m.typ == "control")
  }

  lemma AskingStep(s: HostState, secret: string, ws: nat, m: Msg, now: nat)
    requires Asks(s, ws, m)
    ensures Step(s, secret, Input(now, Message(ws, m))) == ConsumerRequest(s, ws, m, now)
  {
    RequestStep(s, secret, Input(now, Message(ws, m)));
    assert "bridge"[0] != "consumer"[0];
  }

  /**
   A consumer's control request goes out under the consumer's own id: every open bridge that advertised
   control gets one copy, as a frame or in its queue, nobody else does, the sender is told that id and the
   number of copies, and a result bearing the id will come back to it.
   */
  lemma RequestReachesCapableBridges(s: HostState, secret: string, ws: nat, m: Msg, now: nat)
    requires Coherent(s) && Asks(s, ws, m) && Capable(s) != {}
    ensures var o := Step(s, secret, Input(now, Message(ws, m)));
      exists id, frames ::
        && KnownBy(id, m, s.conns[ws].clientId, now)
        && OneCopyEach(frames, o.log.mail, Capable(s), m.(typ := "control_request", id := id))
        && o.log.wire == frames + Send(s.conns, ws, Forwarded(id, |Capable(s)|))
        && o.state.pending == s.pending[id := Pending(ws, FromConsumer)]
  {
    var id := RequestId(m, s.conns[ws].clientId, now);
    var payload := m.(typ := "control_request", id := id);
    RequestIdIsKnown(m, s.conns[ws].clientId, now);
    CapableAreTargets(s);
    FramesAndMail(Targets(s), payload);
    RequestFramesNoEvents(Targets(s), payload);
    assert Targets(s) != [];
    AskingStep(s, secret, ws, m, now);
    RequestIsSplit(s, ws, m, now, payload);
    assert OneCopyEach(RequestFrames(Targets(s), payload), RequestMail(Targets(s), payload), Capable(s), payload);
  }

  lemma RequestIsSplit(s: HostState, ws: nat, m: Msg, now: nat, payload: Msg)
    requires ws in s.conns && Targets(s) != []
    requires payload == m.(typ := "control_request", id := RequestId(m, s.conns[ws].clientId, now))
    ensures var o := ConsumerRequest(s, ws, m, now);
      && o.log.mail == RequestMail(Targets(s), payload)
      && o.log.wire == RequestFrames(Targets(s), payload) + Send(s.conns, ws, Forwarded(payload.id, |Targets(s)|))
      && o.state.pending == s.pending[payload.id := Pending(ws, FromConsumer)]
  {
  }

  /** Queues of capable sessions grow by that copy, and other queues stay. */
  lemma RequestQueues(s: HostState, secret: string, ws: nat, m: Msg, now: nat, sid: nat)
    requires Coherent(s) && Asks(s, ws, m) && Capable(s) != {} && sid in s.sessions
    ensures var t := Step(s, secret, Input(now, Message(ws, m))).state;
      && sid in t.sessions && t.sessions[sid].lastSeen == s.sessions[sid].lastSeen
      && (Http(sid) !in Capable(s) ==> t.sessions[sid].queue == s.sessions[sid].queue)
      && (Http(sid) in Capable(s) ==>
            exists id :: KnownBy(id, m, s.conns[ws].clientId, now) &&
              t.sessions[sid].queue == s.sessions[sid].queue + [m.(typ := "control_request", id := id)])
  {
    CapableAreTargets(s);
    AskingStep(s, secret, ws, m, now);
    RequestIdIsKnown(m, s.conns[ws].clientId, now);
    assert Targets(s) != [];
  }

  /** With no capable bridge the sender is told so, under the same id, and nothing else happens. */
  lemma RequestWithoutBridges(s: HostState, secret: string, ws: nat, m: Msg, now: nat)
    requires Coherent(s) && Asks(s, ws, m) && Capable(s) == {}
    ensures exists id :: KnownBy(id, m, s.conns[ws].clientId, now) &&
              Step(s, secret, Input(now, Message(ws, m))) == Wire(s, Send(s.conns, ws, NoTarget(id)))
  {
    UnansweredRequest(s, ws, m, now);
    AskingStep(s, secret, ws, m, now);
    RequestIdIsKnown(m, s.conns[ws].clientId, now);
  }

  lemma UnansweredRequest(s: HostState, ws: nat, m: Msg, now: nat)
    requires Coherent(s) && ws in s.conns && Capable(s) == {}
    ensures ConsumerRequest(s, ws, m, now) ==
            Wire(s, Send(s.conns, ws, NoTarget(RequestId(m, s.conns[ws].clientId, now))))
  {
    CapableAreTargets(s);
    assert Targets(s) == [];
  }

  lemma {:induction false} DistinctCardinality<T>(xs: seq<T>, all: set<T>)
    requires NoDup(xs) && forall x :: x in xs <==> x in all
    ensures |xs| == |all|
  {
    if xs == [] {
      assert all == {};
    } else {
      var n := |xs| - 1;
      assert xs == xs[..n] + [xs[n]] && xs[n] !in xs[..n];
      DistinctCardinality(xs[..n], all - {xs[n]});
    }
  }

  /* ---------- the control queue ---------- */

  /** Control payloads targeted at the session, in order. */
  function PushedTo(mail: seq<Mail>, sid: nat): seq<Msg> {
    if mail == [] then []
    else
      var n := |mail| - 1;
      PushedTo(mail[..n], sid) + (if mail[n].Pushed? && mail[n].sid == sid then [mail[n].m] else [])
  }

  /** The concatenation of all poll replies of the session. */
  function TakenBy(mail: seq<Mail>, sid: nat): seq<Msg> {
    if mail == [] then []
    else
      var n := |mail| - 1;
      TakenBy(mail[..n], sid) + (if mail[n].Taken? && mail[n].sid == sid then mail[n].ms else [])
  }

  lemma {:induction false} PushedConcat(a: seq<Mail>, b: seq<Mail>, sid: nat)
    ensures PushedTo(a + b, sid) == PushedTo(a, sid) + PushedTo(b, sid)
    decreases |b|
  {
    if b == [] {
      assert a + b == a;
    } else {
      assert (a + b)[..|a + b| - 1] == a + b[..|b| - 1];
      PushedConcat(a, b[..|b| - 1], sid);
    }
  }

  lemma {:induction false} TakenConcat(a: seq<Mail>, b: seq<Mail>, sid: nat)
    ensures TakenBy(a + b, sid) == TakenBy(a, sid) + TakenBy(b, sid)
    decreases |b|
  {
    if b == [] {
      assert a + b == a;
    } else {
      var n := |b| - 1;
      assert (a + b)[..|a + b| - 1] == a + b[..n];
      TakenConcat(a, b[..n], sid);
      var last := if b[n].Taken? && b[n].sid == sid then b[n].ms else [];
      assert (TakenBy(a, sid) + TakenBy(b[..n], sid)) + last == TakenBy(a, sid) + (TakenBy(b[..n], sid) + last);
    }
  }

  lemma {:induction false} MailOfRequest(ts: seq<Peer>, m: Msg, sid: nat)
    requires NoDup(ts)
    ensures PushedTo(RequestMail(ts, m), sid) == if Http(sid) in ts then [m] else []
    ensures TakenBy(RequestMail(ts, m), sid) == []
  {
    if ts != [] {
      var n := |ts| - 1;
      MailOfRequest(ts[..n], m, sid);
      assert ts == ts[..n] + [ts[n]] && ts[n] !in ts[..n];
      if ts[n].Http? {
        PushedConcat(RequestMail(ts[..n], m), [Pushed(ts[n].sid, m)], sid);
        TakenConcat(RequestMail(ts[..n], m), [Pushed(ts[n].sid, m)], sid);
        OneMail(Pushed(ts[n].sid, m), sid);
      } else {
        assert RequestMail(ts, m) == RequestMail(ts[..n], m);
      }
    }
  }

  lemma OneMail(x: Mail, sid: nat)
    ensures PushedTo([x], sid) == if x.Pushed? && x.sid == sid then [x.m] else []
    ensures TakenBy([x], sid) == if x.Taken? && x.sid == sid then x.ms else []
  {
    assert [x][..0] == [];
    assert PushedTo([x], sid) == PushedTo([x][..0], sid) + (if x.Pushed? && x.sid == sid then [x.m] else []);
    assert TakenBy([x], sid) == TakenBy([x][..0], sid) + (if x.Taken? && x.sid == sid then x.ms else []);
  }

  /** One step: what the session had queued plus what the step pushed is what it polled plus what is queued now. */
  ghost predicate Fifo(before: map<nat, Session>, mail: seq<Mail>, after: map<nat, Session>, sid: nat) {
    if sid in before && sid in after then
      before[sid].queue + PushedTo(mail, sid) == TakenBy(mail, sid) + after[sid].queue
    else
      && PushedTo(mail, sid) == [] && TakenBy(mail, sid) == []
      && (sid in after ==> after[sid].queue == [])
  }

  lemma NoMailFifo(before: map<nat, Session>, after: map<nat, Session>, sid: nat)
    requires sid in before && sid in after ==> before[sid].queue == after[sid].queue
    requires sid !in before && sid in after ==> after[sid].queue == []
    ensures Fifo(before, [], after, sid)
  {
    assert sid in before ==> before[sid].queue + [] == [] + before[sid].queue;
  }

  lemma ConsumerRequestFifo(s: HostState, ws: nat, m: Msg, now: nat, sid: nat)
    requires Coherent(s) && ws in s.conns
    ensures var o := ConsumerRequest(s, ws, m, now); Fifo(s.sessions, o.log.mail, o.state.sessions, sid)
  {
    var payload := m.(typ := "control_request", id := RequestId(m, s.conns[ws].clientId, now));
    if Capable(s) == {} {
      UnansweredRequest(s, ws, m, now);
      NoMailFifo(s.sessions, s.sessions, sid);
    } else {
      var o := ConsumerRequest(s, ws, m, now);
      CapableAreTargets(s);
      MailOfRequest(Targets(s), payload, sid);
      assert Targets(s) != [];
      assert o.log.mail == RequestMail(Targets(s), payload);
      assert o.state.sessions == Queued(s.sessions, Targets(s), payload);
      assert Http(sid) in Targets(s) ==> sid in s.sessions;
    }
  }

  lemma FrameFifo(s: HostState, secret: string, ws: nat, m: Msg, now: nat, sid: nat)
    requires Coherent(s) && ws in s.conns
    ensures var o := OnMessage(s, secret, ws, m, now);
      && Fifo(s.sessions, o.log.mail, o.state.sessions, sid)
      && o.state.nextSid == s.nextSid && o.state.sessions.Keys == s.sessions.Keys
  {
    NoMailFifo(s.sessions, s.sessions, sid);
    if s.conns[ws].role.None? {
      AuthenticateChanges(s, secret, ws, m, now);
    } else if m.typ == "ping" {
    } else if s.conns[ws].role == Some("bridge") {
      BridgeFrameChanges(s, ws, m, now);
    } else if s.conns[ws].role == Some("consumer") {
      ConsumerFrameFifo(s, ws, m, now, sid);
    }
  }

  lemma ConsumerFrameFifo(s: HostState, ws: nat, m: Msg, now: nat, sid: nat)
    requires Coherent(s) && ws in s.conns
    ensures var o := ConsumerFrame(s, ws, m, now);
      && Fifo(s.sessions, o.log.mail, o.state.sessions, sid)
      && o.state.nextSid == s.nextSid && o.state.sessions.Keys == s.sessions.Keys
  {
    ConsumerFrameChanges(s, ws, m, now);
    ConsumerRequestFifo(s, ws, m, now, sid);
    NoMailFifo(s.sessions, s.sessions, sid);
    if m.typ == "subscribe" {
      assert "subscribe"[0] == 's' && "control"[0] == 'c' && "control_request"[0] == 'c';
    }
  }

  lemma SessionFifo(s: HostState, r: HttpRequest, now: nat, sid: nat)
    requires r.Hello? || r.Events? || r.ControlResult? || r.Poll? || r.Heartbeat?
    requires r.sid in s.sessions
    ensures var o := OnSession(Touch(s, r.sid, now), r, now);
      && Fifo(s.sessions, o.log.mail, o.state.sessions, sid)
      && o.state.nextSid == s.nextSid && o.state.sessions.Keys == s.sessions.Keys
  {
    var t := Touch(s, r.sid, now);
    assert t.sessions.Keys == s.sessions.Keys;
    NoMailFifo(s.sessions, t.sessions, sid);
    match r
    case Events(_, ms) => DeliverAllQuiet(t, r.sid, ms, now);
    case Poll(_) =>
      OneMail(Taken(r.sid, s.sessions[r.sid].queue), sid);
      assert OnSession(t, r, now).state.sessions.Keys == t.sessions.Keys;
    case Hello(_, _) =>
    case ControlResult(_, _, _, _) =>
    case Heartbeat(_) =>
  }

  lemma HttpFifo(s: HostState, secret: string, r: HttpRequest, now: nat, sid: nat)
    requires Coherent(s)
    ensures var o := OnHttp(s, secret, r, now);
      && Fifo(s.sessions, o.log.mail, o.state.sessions, sid) && s.nextSid <= o.state.nextSid
      && (sid !in s.sessions && sid in o.state.sessions ==> sid >= s.nextSid)
  {
    match r
    case Connect(_, _) =>
      assert s.nextSid !in s.sessions;
      NoMailFifo(s.sessions, OnHttp(s, secret, r, now).state.sessions, sid);
    case Disconnect(gone) => NoMailFifo(s.sessions, OnHttp(s, secret, r, now).state.sessions, sid);
    case UnknownRoute => NoMailFifo(s.sessions, s.sessions, sid);
    case MalformedBody => NoMailFifo(s.sessions, s.sessions, sid);
    case _ =>
      if r.sid in s.sessions {
        SessionFifo(s, r, now, sid);
      } else {
        NoMailFifo(s.sessions, s.sessions, sid);
      }
  }

  lemma StepFifo(s: HostState, secret: string, e: Input, sid: nat)
    requires Coherent(s)
    ensures var o := Step(s, secret, e);
      && Fifo(s.sessions, o.log.mail, o.state.sessions, sid) && s.nextSid <= o.state.nextSid
      && (sid !in s.sessions && sid in o.state.sessions ==> sid >= s.nextSid)
  {
    match e.what
    case Message(ws, m) =>
      if ws in s.conns {
        FrameFifo(s, secret, ws, m, e.now, sid);
      } else {
        NoMailFifo(s.sessions, s.sessions, sid);
      }
    case HttpCall(r) => HttpFifo(s, secret, r, e.now, sid);
    case _ => TimersFifo(s, secret, e, sid);
  }

  lemma TimersFifo(s: HostState, secret: string, e: Input, sid: nat)
    requires !e.what.Message? && !e.what.HttpCall?
    ensures var o := Step(s, secret, e);
      && Fifo(s.sessions, o.log.mail, o.state.sessions, sid) && s.nextSid <= o.state.nextSid
      && (sid !in s.sessions ==> sid !in o.state.sessions)
  {
    TimersAndSessions(s, secret, e);
    NoMailFifo(s.sessions, Step(s, secret, e).state.sessions, sid);
  }

  lemma TimersAndSessions(s: HostState, secret: string, e: Input)
    requires !e.what.Message? && !e.what.HttpCall?
    ensures var o := Step(s, secret, e);
      && o.log.mail == [] && o.state.nextSid == s.nextSid
      && o.state.sessions == if e.what.PruneTick? then s.sessions - Expired(s, e.now) else s.sessions
  {
    match e.what
    case BadFrame(ws) => CloseChanges(s, ws);
    case AuthTimeout(ws) => CloseChanges(s, ws);
    case PeerClosing(ws) => CloseChanges(s, ws);
    case Closed(ws) => if ws in s.conns { CloseAndSessions(s, ws); }
    case _ =>
  }

  lemma CloseAndSessions(s: HostState, ws: nat)
    requires ws in s.conns
    ensures var o := OnClose(s, ws); o.log.mail == [] && o.state.nextSid == s.nextSid && o.state.sessions == s.sessions
  {
  }

  /** The book-keeping of one session's mail from its creation on. */
  ghost predicate Delivered(mail: seq<Mail>, sessions: map<nat, Session>, nextSid: nat, sid: nat) {
    && (sid in sessions ==> TakenBy(mail, sid) + sessions[sid].queue == PushedTo(mail, sid))
    && TakenBy(mail, sid) <= PushedTo(mail, sid)
    && (sid >= nextSid ==> PushedTo(mail, sid) == [])
  }

  lemma DeliveredStep(mail: seq<Mail>, before: map<nat, Session>, nextSid: nat,
                      more: seq<Mail>, after: map<nat, Session>, nextSid': nat, sid: nat)
    requires Delivered(mail, before, nextSid, sid) && Fifo(before, more, after, sid)
    requires nextSid <= nextSid' && (sid !in before && sid in after ==> sid >= nextSid)
    requires sid in before ==> sid < nextSid
    ensures Delivered(mail + more, after, nextSid', sid)
  {
    PushedConcat(mail, more, sid);
    TakenConcat(mail, more, sid);
    if sid in before && sid in after {
      QueuesAddUp(TakenBy(mail, sid), before[sid].queue, PushedTo(more, sid), TakenBy(more, sid), after[sid].queue);
    } else {
      assert PushedTo(mail, sid) + [] == PushedTo(mail, sid) && TakenBy(mail, sid) + [] == TakenBy(mail, sid);
    }
  }

  lemma QueuesAddUp(taken: seq<Msg>, queue: seq<Msg>, pushed: seq<Msg>, more: seq<Msg>, rest: seq<Msg>)
    requires queue + pushed == more + rest
    ensures (taken + queue) + pushed == (taken + more) + rest
    ensures taken + more <= (taken + queue) + pushed
  {
    assert (taken + queue) + pushed == taken + (queue + pushed);
    assert (taken + more) + rest == taken + (more + rest);
  }

  /**
   Exactly-once FIFO over every run: for a live session the poll replies followed by the queue are the
   payloads targeted at it; for one that has ended the poll replies are a prefix of them.
   */
  lemma {:induction false} ControlQueueIsFifo(start: nat, secret: string, es: seq<Input>, sid: nat)
    ensures var o := Run(Initial(start), secret, es); Delivered(o.log.mail, o.state.sessions, o.state.nextSid, sid)
  {
    if es != [] {
      var n := |es| - 1;
      var before := Run(Initial(start), secret, es[..n]);
      var last := Step(before.state, secret, es[n]);
      ControlQueueIsFifo(start, secret, es[..n], sid);
      ReachableCoherent(start, secret, es[..n]);
      StepFifo(before.state, secret, es[n], sid);
      DeliveredStep(before.log.mail, before.state.sessions, before.state.nextSid,
                    last.log.mail, last.state.sessions, last.state.nextSid, sid);
    }
  }

  /** What a poll replies with is what it takes: the whole queue, in order. */
  lemma PollRepliesWithQueue(s: HostState, secret: string, sid: nat, now: nat)
    requires sid in s.sessions
    ensures var o := Step(s, secret, Input(now, HttpCall(Poll(sid))));
      && o.log.replies == [Commands(s.sessions[sid].queue)]
      && o.log.mail == [Taken(sid, s.sessions[sid].queue)]
      && o.state.sessions == s.sessions[sid := Session([], now)]
      && o.log.wire == []
  {
    assert Touch(s, sid, now).sessions[sid := Session([], now)] == s.sessions[sid := Session([], now)];
  }

  /** A request in the name of a session is refused, and changes nothing, iff there is no such session. */
  lemma UnknownSessionIsRefused(s: HostState, secret: string, r: HttpRequest, now: nat)
    requires r.Hello? || r.Events? || r.ControlResult? || r.Poll? || r.Heartbeat?
    ensures var o := Step(s, secret, Input(now, HttpCall(r)));
      && (r.sid !in s.sessions <==> o.log.replies == [Status(404)])
      && (r.sid !in s.sessions ==> o.state == s && o.log.wire == [])
  {
    var o := Step(s, secret, Input(now, HttpCall(r)));
    if r.sid in s.sessions {
      assert o == OnSession(Touch(s, r.sid, now), r, now);
      assert |o.log.replies| == 1 && o.log.replies[0] != Status(404);
    } else {
      assert o == Responds(s, Status(404));
    }
  }

  /** Over HTTP, too, a hello changes the capabilities of its own session only. */
  lemma HttpHelloAdvertises(s: HostState, secret: string, sid: nat, caps: seq<string>, now: nat)
    requires sid in s.sessions
    ensures var o := Step(s, secret, Input(now, HttpCall(Hello(sid, caps))));
      && Lookup(o.state.capabilities, Http(sid)) == Some(caps)
      && (forall p :: p != Http(sid) ==> Lookup(o.state.capabilities, p) == Lookup(s.capabilities, p))
      && o.log.replies == [HelloOk(sid)]
  {
  }

  /* ---------- expiry ---------- */

  predicate Contacts(e: Input, sid: nat) {
    && e.what.HttpCall?
    && (e.what.r.Hello? || e.what.r.Events? || e.what.r.ControlResult? || e.what.r.Poll? || e.what.r.Heartbeat?)
    && e.what.r.sid == sid
  }

  predicate Ends(e: Input, sid: nat) {
    e.what == HttpCall(Disconnect(sid))
  }

  function LastSeen(s: HostState, sid: nat): Option<nat> {
    if sid in s.sessions then Some(s.sessions[sid].lastSeen) else None
  }

  /** What one input does to a session last heard of at `seen`. */
  function Fate(seen: Option<nat>, sid: nat, e: Input): Option<nat> {
    if seen.None? then None
    else if Contacts(e, sid) then Some(e.now)
    else if Ends(e, sid) || (e.what.PruneTick? && e.now - seen.value > STALE_MS) then None
    else seen
  }

  lemma {:induction false} DeliverAllKeepsSessions(s: HostState, sid: nat, ms: seq<Msg>, now: nat)
    ensures DeliverAll(s, sid, ms, now).state.sessions == s.sessions
  {
    DeliverAllQuiet(s, sid, ms, now);
  }

  lemma FrameKeepsLastSeen(s: HostState, secret: string, ws: nat, m: Msg, now: nat, sid: nat)
    requires ws in s.conns && sid in s.sessions
    ensures LastSeen(OnMessage(s, secret, ws, m, now).state, sid) == LastSeen(s, sid)
  {
    if s.conns[ws].role == Some("bridge") && m.typ != "ping" {
      BridgeFrameChanges(s, ws, m, now);
    }
  }

  lemma HttpFate(s: HostState, secret: string, r: HttpRequest, now: nat, sid: nat)
    requires sid in s.sessions && sid < s.nextSid
    ensures LastSeen(OnHttp(s, secret, r, now).state, sid) == Fate(LastSeen(s, sid), sid, Input(now, HttpCall(r)))
  {
    if r.Events? && r.sid in s.sessions {
      DeliverAllKeepsSessions(Touch(s, r.sid, now), r.sid, r.events, now);
    }
  }

  lemma StepFate(s: HostState, secret: string, e: Input, sid: nat)
    requires Coherent(s) && sid in s.sessions
    ensures LastSeen(Step(s, secret, e).state, sid) == Fate(LastSeen(s, sid), sid, e)
  {
    match e.what
    case Message(ws, m) => if ws in s.conns { FrameKeepsLastSeen(s, secret, ws, m, e.now, sid); }
    case HttpCall(r) => HttpFate(s, secret, r, e.now, sid);
    case _ => TimersAndSessions(s, secret, e);
  }

  function FateOver(seen: Option<nat>, sid: nat, es: seq<Input>): Option<nat> {
    if es == [] then seen else Fate(FateOver(seen, sid, es[..|es| - 1]), sid, es[|es| - 1])
  }

  /** A session's id is never given out again. */
  lemma GoneStaysGone(s: HostState, secret: string, e: Input, sid: nat)
    requires Coherent(s) && sid !in s.sessions && sid < s.nextSid
    ensures var t := Step(s, secret, e).state; sid !in t.sessions && sid < t.nextSid
  {
    StepFifo(s, secret, e, sid);
  }

  /** Whether and since when a session lives is decided by its own contacts and the pruning ticks alone. */
  lemma {:induction false} SessionFate(s: HostState, secret: string, es: seq<Input>, sid: nat)
    requires Coherent(s) && sid in s.sessions
    ensures var t := Run(s, secret, es).state;
      LastSeen(t, sid) == FateOver(LastSeen(s, sid), sid, es) && sid < t.nextSid
  {
    if es != [] {
      var n := |es| - 1;
      var before := Run(s, secret, es[..n]).state;
      SessionFate(s, secret, es[..n], sid);
      RunCoherent(s, secret, es[..n]);
      if sid in before.sessions {
        StepFate(before, secret, es[n], sid);
        StepFifo(before, secret, es[n], sid);
      } else {
        GoneStaysGone(before, secret, es[n], sid);
      }
    }
  }

  /** The time of the last contact before the end of `es`, starting from `seen`. */
  function LastContact(seen: nat, sid: nat, es: seq<Input>): nat {
    if es == [] then seen
    else if Contacts(es[|es| - 1], sid) then es[|es| - 1].now
    else LastContact(seen, sid, es[..|es| - 1])
  }

  /** A session whose contacts are never more than 15 seconds apart is never removed. */
  lemma {:induction false} LivelySessionSurvives(s: HostState, secret: string, es: seq<Input>, sid: nat)
    requires Coherent(s) && sid in s.sessions
    requires forall i :: 0 <= i < |es| ==> !Ends(es[i], sid)
    requires forall i :: 0 <= i < |es| ==> es[i].now - LastContact(s.sessions[sid].lastSeen, sid, es[..i]) <= 15_000
    ensures sid in Run(s, secret, es).state.sessions
  {
    SessionFate(s, secret, es, sid);
    LivelyFate(s.sessions[sid].lastSeen, sid, es);
  }

  lemma {:induction false} LivelyFate(seen: nat, sid: nat, es: seq<Input>)
    requires forall i :: 0 <= i < |es| ==> !Ends(es[i], sid)
    requires forall i :: 0 <= i < |es| ==> es[i].now - LastContact(seen, sid, es[..i]) <= STALE_MS
    ensures FateOver(Some(seen), sid, es) == Some(LastContact(seen, sid, es))
  {
    if es != [] {
      var n := |es| - 1;
      forall i | 0 <= i < n
        ensures es[..n][i].now - LastContact(seen, sid, es[..n][..i]) <= STALE_MS
      {
        assert es[..n][..i] == es[..i];
      }
      LivelyFate(seen, sid, es[..n]);
    }
  }

  /** The pruning timer: a tick every 15 seconds after the host's start, none missing up to `until`. */
  ghost predicate TicksOnTime(start: nat, es: seq<Input>, from: nat, until: nat) {
    forall k: nat :: from < start + k * 15_000 <= until ==> Input(start + k * 15_000, PruneTick) in es
  }

  lemma {:induction false} SilentFate(seen: nat, sid: nat, es: seq<Input>, t: nat)
    requires forall i :: 0 <= i < |es| ==> !Contacts(es[i], sid)
    requires Input(t, PruneTick) in es && t > seen + STALE_MS
    ensures FateOver(Some(seen), sid, es) == None
  {
    var n := |es| - 1;
    if es[n] == Input(t, PruneTick) {
      SilentStaysOrGoes(seen, sid, es[..n]);
    } else {
      assert es == es[..n] + [es[n]];
      SilentFate(seen, sid, es[..n], t);
    }
  }

  lemma {:induction false} SilentStaysOrGoes(seen: nat, sid: nat, es: seq<Input>)
    requires forall i :: 0 <= i < |es| ==> !Contacts(es[i], sid)
    ensures FateOver(Some(seen), sid, es) in {Some(seen), None}
  {
    if es != [] {
      SilentStaysOrGoes(seen, sid, es[..|es| - 1]);
    }
  }

  /** Some tick falls in every half-open stretch of one period. */
  lemma TickWithin(start: nat, at: nat) returns (k: nat)
    requires start <= at
    ensures at < start + k * STALE_MS <= at + STALE_MS
  {
    k := (at - start) / STALE_MS + 1;
  }

  /**
   A session silent since `lastSeen` is gone, from every table, once the ticks up to `lastSeen` + 30
   seconds have run.
   */
  lemma {:induction false} SilentSessionIsRemoved(s: HostState, secret: string, start: nat, es: seq<Input>, sid: nat)
    requires Coherent(s) && sid in s.sessions && start <= s.sessions[sid].lastSeen
    requires forall i :: 0 <= i < |es| ==> !Contacts(es[i], sid)
    requires TicksOnTime(start, es, s.sessions[sid].lastSeen, s.sessions[sid].lastSeen + 30_000)
    ensures var t := Run(s, secret, es).state;
      sid !in t.sessions && Http(sid) !in t.bridges && Http(sid) !in t.capabilities
  {
    var seen := s.sessions[sid].lastSeen;
    var k := TickWithin(start, seen + STALE_MS);
    SilentFate(seen, sid, es, start + k * STALE_MS);
    SessionFate(s, secret, es, sid);
    RunCoherent(s, secret, es);
  }
}
