/** A consumer attached to the host: each request's result comes back to it, and at most once. */
module EndToEnd {
  import opened Common
  import opened Routing
  import H = HostModel
  import HostCoherence
  import HostControl
  import HostSessions
  import HostRoundTrip
  import C = ConsumerModel

  /** What a consumer's message handler sees of a frame. */
  function Incoming(f: H.Frame): C.Happening {
    match f
    case Answer(m) => C.Result(m.id, m.rest.ok)
    case NoTarget(id) => C.Result(id, false)
    case Event(m) => if m.typ == "control_result" then C.Result(m.id, m.rest.ok) else C.OtherFrame
    case _ => C.OtherFrame
  }

  /** Frames put on the wire for one socket, in order. */
  function FramesTo(wire: seq<H.Sent>, ws: nat): seq<H.Frame> {
    if wire == [] then []
    else
      var n := |wire| - 1;
      FramesTo(wire[..n], ws) + (if wire[n].ws == ws then [wire[n].frame] else [])
  }

  /** Frames the consumer's inputs report, in order. */
  function Received(es: seq<C.Input>): seq<C.Happening> {
    if es == [] then []
    else
      var n := |es| - 1;
      Received(es[..n]) + (if es[n].what.Result? || es[n].what.OtherFrame? then [es[n].what] else [])
  }

  function Seen(fs: seq<H.Frame>): seq<C.Happening> {
    seq(|fs|, i requires 0 <= i < |fs| => Incoming(fs[i]))
  }

  function ResultsIn(hs: seq<C.Happening>, id: Option<string>): nat {
    Count(hs, (h: C.Happening) => h.Result? && h.key == id)
  }

  /** The consumer has received the first frames sent to it: the channel is FIFO and may be cut off. */
  ghost predicate Attached(wire: seq<H.Sent>, ws: nat, es: seq<C.Input>) {
    Received(es) <= Seen(FramesTo(wire, ws))
  }

  lemma {:induction false} SeenAtMostSent(wire: seq<H.Sent>, ws: nat, id: Option<string>)
    ensures ResultsIn(Seen(FramesTo(wire, ws)), id) <= HostControl.Results(wire, id)
  {
    if wire != [] {
      var n := |wire| - 1;
      SeenAtMostSent(wire[..n], ws, id);
      var before := FramesTo(wire[..n], ws);
      if wire[n].ws == ws {
        var f := wire[n].frame;
        assert Seen(before + [f]) == Seen(before) + [Incoming(f)];
        CountConcat(Seen(before), [Incoming(f)], (h: C.Happening) => h.Result? && h.key == id);
        CountOne(Incoming(f), (h: C.Happening) => h.Result? && h.key == id);
        assert ResultsIn(Seen(before + [f]), id) == ResultsIn(Seen(before), id) + ResultsIn([Incoming(f)], id);
        assert HostControl.Results(wire, id) ==
               HostControl.Results(wire[..n], id) + (if HostControl.LooksLikeResult(f, id) then 1 else 0);
        assert Incoming(f).Result? && Incoming(f).key == id <==> HostControl.LooksLikeResult(f, id);
      } else {
        assert FramesTo(wire, ws) == before;
      }
    }
  }

  lemma {:induction false} PrefixSeesLess(hs: seq<C.Happening>, all: seq<C.Happening>, id: Option<string>)
    requires hs <= all
    ensures ResultsIn(hs, id) <= ResultsIn(all, id)
  {
    assert all == hs + all[|hs|..];
    CountConcat(hs, all[|hs|..], (h: C.Happening) => h.Result? && h.key == id);
  }

  function Emissions(s: C.ConsumerState, id: Option<string>): nat {
    Count(s.emitted, (x: Option<string>) => x == id)
  }

  lemma ResultsInSnoc(hs: seq<C.Happening>, h: C.Happening, id: Option<string>)
    ensures ResultsIn(hs + [h], id) == ResultsIn(hs, id) + (if h.Result? && h.key == id then 1 else 0)
  {
    assert (hs + [h])[..|hs|] == hs;
  }

  lemma StepEmits(s: C.ConsumerState, e: C.Input, id: Option<string>)
    ensures Emissions(C.Step(s, e), id) == Emissions(s, id) + (if e.what.Result? && e.what.key == id then 1 else 0)
  {
    if e.what.Result? {
      assert C.Step(s, e).emitted == s.emitted + [e.what.key];
      assert (s.emitted + [e.what.key])[..|s.emitted|] == s.emitted;
    } else {
      assert C.Step(s, e).emitted == s.emitted;
    }
  }

  lemma {:induction false} EmitsWhatItReceives(es: seq<C.Input>, id: Option<string>)
    ensures Emissions(C.Run(C.FRESH, es), id) == ResultsIn(Received(es), id)
  {
    if es != [] {
      var n := |es| - 1;
      EmitsWhatItReceives(es[..n], id);
      ResultsInSnoc(Received(es[..n]), es[n].what, id);
      StepEmits(C.Run(C.FRESH, es[..n]), es[n], id);
      assert Received(es[..n]) + [] == Received(es[..n]);
    }
  }

  /**
   Host and consumer together: a control id that is requested at most once is reported to the consumer at
   most once, however many bridges answer it and by whichever path, over every run of the host and every
   interleaving at the consumer.
   */
  lemma {:induction false} ControlResultAtMostOnce(start: nat, secret: string, hostRun: seq<H.Input>, ws: nat,
                                consumerRun: seq<C.Input>, id: Option<string>)
    requires forall i :: 0 <= i < |hostRun| ==> HostControl.PostsNoResults(hostRun[i])
    requires HostControl.Requests(H.Initial(start), secret, hostRun, id) <= 1
    requires Attached(H.Run(H.Initial(start), secret, hostRun).log.wire, ws, consumerRun)
    ensures Emissions(C.Run(C.FRESH, consumerRun), id) <= 1
  {
    var wire := H.Run(H.Initial(start), secret, hostRun).log.wire;
    HostControl.ResultsNeverOutnumberRequests(H.Initial(start), secret, hostRun, id);
    SeenAtMostSent(wire, ws, id);
    PrefixSeesLess(Received(consumerRun), Seen(FramesTo(wire, ws)), id);
    EmitsWhatItReceives(consumerRun, id);
  }

  /* ---------- a request's own result ---------- */

  /** Whether the bridge reported success, by either path. */
  predicate ReportsSuccess(answer: H.Input) {
    match answer.what
    case Message(_, m) => m.rest.ok
    case HttpCall(r) => r.ControlResult? && r.ok
    case _ => false
  }

  lemma AnswerIsAResult(t: H.HostState, secret: string, answer: H.Input)
    requires HostControl.Settles(t, answer)
    ensures var (id, m) := HostControl.Settled(answer);
      Incoming(H.Answer(m)) == C.Result(id, ReportsSuccess(answer))
  {
    HostControl.ResultReachesRegistrant(t, secret, answer);
  }

  /**
   Host and consumer together: a consumer asks under an id of its own, the host passes the request on, and
   some bridge answers what it got, under the id it got, by either path. Then the one frame the host sends
   settles the promise of that very request, with the outcome the bridge reported, provided that nothing
   has touched the id in between on either side.
   */
  lemma OwnResultSettlesOwnPromise(
      s: H.HostState, secret: string, ws: nat, m: H.Msg, now: nat, b: H.Peer, p: H.Msg,
      between: seq<H.Input>, answer: H.Input, consumerRun: seq<C.Input>, i: nat, at: nat)
    requires HostCoherence.Coherent(s) && HostSessions.Asks(s, ws, m) && H.IsOpen(s.conns, ws)
    requires i < |consumerRun| && C.Issues(consumerRun, i) && C.Untouched(consumerRun, i)
    requires consumerRun[i].what.id != "" && m.id == Some(consumerRun[i].what.id)
    requires var o := H.Step(s, secret, H.Input(now, H.Message(ws, m)));
      && HostRoundTrip.Got(o.log, b, p)
      && HostRoundTrip.Quiet(o.state, secret, between, ws, p.id)
      && HostControl.Settles(H.Run(o.state, secret, between).state, answer) && HostControl.Settled(answer).0 == p.id
    ensures var t := H.Run(H.Step(s, secret, H.Input(now, H.Message(ws, m))).state, secret, between).state;
      var wire := H.Step(t, secret, answer).log.wire;
      var c := C.Run(C.FRESH, consumerRun);
      var how := if ReportsSuccess(answer) then C.Resolved else C.Rejected;
      && |wire| == 1 && wire[0].ws == ws
      && C.Step(c, C.Input(at, Incoming(wire[0].frame))).settled ==
           c.settled + [C.Settlement(C.Ticket(consumerRun, i), consumerRun[i].what.id, at, how)]
  {
    var t := H.Run(H.Step(s, secret, H.Input(now, H.Message(ws, m))).state, secret, between).state;
    HostRoundTrip.GotUnderOwnId(s, secret, ws, m, now, b, p);
    HostRoundTrip.AnswerComesBack(s, secret, ws, m, now, b, p, between, answer);
    AnswerIsAResult(t, secret, answer);
    C.ResultSettlesExactly(consumerRun, i, ReportsSuccess(answer), at);
  }
}
