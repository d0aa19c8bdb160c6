/** A consumer's request and the result that answers it: the way there and the way back. */
module HostRoundTrip {
  import opened Common
  import opened HostModel
  import opened HostCoherence
  import opened HostFanOut
  import opened HostControl
  import opened HostSessions
  import opened HostReplies

  /* ---------- the way there ---------- */

  /** The request `p` was sent to the bridge, or queued for it. */
  predicate Got(log: Log, b: Peer, p: Msg) {
    match b
    case Ws(ws) => Sent(ws, Frame.Request(p)) in log.wire
    case Http(sid) => Pushed(sid, p) in log.mail
  }

  predicate HasOwnId(m: Msg) {
    m.id.Some? && m.id.value != ""
  }

  /** What bridges get is the consumer's own request, and it bears the consumer's own id iff there is one. */
  lemma GotUnderOwnId(s: HostState, secret: string, ws: nat, m: Msg, now: nat, b: Peer, p: Msg)
    requires Coherent(s) && Asks(s, ws, m) && Got(Step(s, secret, Input(now, Message(ws, m))).log, b, p)
    ensures b in Capable(s) && p == m.(typ := "control_request", id := p.id)
    ensures KnownBy(p.id, m, s.conns[ws].clientId, now)
    ensures p.id == m.id <==> HasOwnId(m)
    ensures Step(s, secret, Input(now, Message(ws, m))).state.pending == s.pending[p.id := Pending(ws, FromConsumer)]
  {
    var o := Step(s, secret, Input(now, Message(ws, m)));
    if Capable(s) == {} {
      RequestWithoutBridges(s, secret, ws, m, now);
    } else {
      RequestReachesCapableBridges(s, secret, ws, m, now);
      var id, frames :|
        && KnownBy(id, m, s.conns[ws].clientId, now)
        && OneCopyEach(frames, o.log.mail, Capable(s), m.(typ := "control_request", id := id))
        && o.log.wire == frames + Send(s.conns, ws, Forwarded(id, |Capable(s)|))
        && o.state.pending == s.pending[id := Pending(ws, FromConsumer)];
      if b.Ws? {
        assert Sent(b.id, Frame.Request(p)) in frames;
      }
      OwnIdIsKept(id, m, s.conns[ws].clientId, now);
    }
  }

  lemma OwnIdIsKept(id: ControlId, m: Msg, clientId: string, now: nat)
    requires KnownBy(id, m, clientId, now)
    ensures id == m.id <==> HasOwnId(m)
  {
    if !HasOwnId(m) {
      var time :| IsNumeral(time) && Value(time) == now && id == Some(clientId + "-" + time);
      assert |clientId + "-" + time| > 0;
    }
  }

  /* ---------- in between ---------- */

  /** Neither a result for the id nor a new request under it, and the socket that waits for it stays. */
  predicate Undisturbed(s: HostState, secret: string, e: Input, ws: nat, id: ControlId) {
    && !(Settles(s, e) && Settled(e).0 == id)
    && Requested(s, e) != Some(id)
    && (ws in s.conns ==> !Shuts(s, secret, e, ws))
  }

  ghost predicate Quiet(s: HostState, secret: string, es: seq<Input>, ws: nat, id: ControlId) {
    forall i :: 0 <= i < |es| ==> Undisturbed(Run(s, secret, es[..i]).state, secret, es[i], ws, id)
  }

  predicate Waits(s: HostState, ws: nat, id: ControlId) {
    IsOpen(s.conns, ws) && id in s.pending && s.pending[id].replyTo == ws
  }

  lemma HttpKeepsPending(s: HostState, secret: string, r: HttpRequest, now: nat)
    requires !Settles(s, Input(now, HttpCall(r)))
    ensures OnHttp(s, secret, r, now).state.pending == s.pending
  {
    if r.Events? && r.sid in s.sessions {
      DeliverAllQuiet(Touch(s, r.sid, now), r.sid, r.events, now);
    }
  }

  lemma RequestKeepsOthers(s: HostState, secret: string, e: Input, id: ControlId)
    requires Requested(s, e).Some? && Requested(s, e) != Some(id) && id in s.pending
    ensures Lookup(Step(s, secret, e).state.pending, id) == Some(s.pending[id])
  {
    RequestStep(s, secret, e);
  }

  lemma CloseKeepsRequest(s: HostState, src: nat, ws: nat, id: ControlId)
    requires Coherent(s) && src in s.conns && src != ws && id in s.pending && s.pending[id].replyTo == ws
    ensures Lookup(OnClose(s, src).state.pending, id) == Some(s.pending[id])
  {
    CloseKeepsOthers(s, src);
  }

  lemma StepKeepsRequest(s: HostState, secret: string, e: Input, ws: nat, id: ControlId)
    requires Coherent(s) && Waits(s, ws, id) && Undisturbed(s, secret, e, ws, id)
    ensures Waits(Step(s, secret, e).state, ws, id)
  {
    SocketEndsExactly(s, secret, e, ws);
    if Settles(s, e) {
      ResultReachesRegistrant(s, secret, e);
    } else if Requested(s, e).Some? {
      RequestKeepsOthers(s, secret, e, id);
    } else {
      match e.what
      case Message(src, m) => QuietFrames(s, secret, src, m, e.now, id);
      case HttpCall(r) => HttpKeepsPending(s, secret, r, e.now);
      case Closed(src) => if src in s.conns { CloseKeepsRequest(s, src, ws, id); }
      case _ => assert Step(s, secret, e).state.pending == s.pending;
    }
  }

  lemma {:induction false} RunKeepsRequest(s: HostState, secret: string, es: seq<Input>, ws: nat, id: ControlId)
    requires Coherent(s) && Waits(s, ws, id) && Quiet(s, secret, es, ws, id)
    ensures Waits(Run(s, secret, es).state, ws, id)
  {
    if es != [] {
      var n := |es| - 1;
      assert forall i :: 0 <= i < n ==> es[..n][..i] == es[..i];
      RunKeepsRequest(s, secret, es[..n], ws, id);
      RunCoherent(s, secret, es[..n]);
      StepKeepsRequest(Run(s, secret, es[..n]).state, secret, es[n], ws, id);
    }
  }

  /* ---------- and the way back ---------- */

  /**
   A result that bears the id under which some bridge got the request goes to the consumer that made it,
   unchanged, by whichever path it comes and whatever else happened in between.
   */
  lemma AnswerComesBack(s: HostState, secret: string, ws: nat, m: Msg, now: nat, b: Peer, p: Msg,
                        between: seq<Input>, answer: Input)
    requires Coherent(s) && Asks(s, ws, m) && IsOpen(s.conns, ws)
    requires var o := Step(s, secret, Input(now, Message(ws, m)));
      && Got(o.log, b, p)
      && Quiet(o.state, secret, between, ws, p.id)
      && Settles(Run(o.state, secret, between).state, answer) && Settled(answer).0 == p.id
    ensures var t := Run(Step(s, secret, Input(now, Message(ws, m))).state, secret, between).state;
      && Step(t, secret, answer).log.wire == [Sent(ws, Answer(Settled(answer).1))]
      && Settled(answer).1.id == p.id
      && (answer.what.HttpCall? ==> Settled(answer).1.rest.ok == answer.what.r.ok)
  {
    var asked := Step(s, secret, Input(now, Message(ws, m))).state;
    GotUnderOwnId(s, secret, ws, m, now, b, p);
    StepCoherent(s, secret, Input(now, Message(ws, m)));
    SocketEndsExactly(s, secret, Input(now, Message(ws, m)), ws);
    RunKeepsRequest(asked, secret, between, ws, p.id);
    ResultReachesRegistrant(Run(asked, secret, between).state, secret, answer);
  }
}
