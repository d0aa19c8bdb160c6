/** What reaches each consumer, by which way in, and in which order. */
module HostStreams {
  import opened Common
  import opened Routing
  import opened HostModel
  import opened HostCoherence
  import opened HostFanOut

  /* ---------- event streams ---------- */

  /** The events, in order, that `ws` is sent. */
  function Stream(wire: seq<Sent>, ws: nat): seq<Msg> {
    if wire == [] then []
    else
      var n := |wire| - 1;
      Stream(wire[..n], ws) + (if wire[n].ws == ws && wire[n].frame.Event? then [wire[n].frame.m] else [])
  }

  lemma {:induction false} StreamConcat(a: seq<Sent>, b: seq<Sent>, ws: nat)
    ensures Stream(a + b, ws) == Stream(a, ws) + Stream(b, ws)
    decreases |b|
  {
    if b == [] {
      assert a + b == a;
    } else {
      var n := |b| - 1;
      assert (a + b)[..|a + b| - 1] == a + b[..n];
      StreamConcat(a, b[..n], ws);
    }
  }

  lemma {:induction false} StreamWithoutEvents(wire: seq<Sent>, ws: nat)
    requires forall x :: x in wire ==> !x.frame.Event?
    ensures Stream(wire, ws) == []
  {
    if wire != [] {
      StreamWithoutEvents(wire[..|wire| - 1], ws);
    }
  }

  lemma StreamSnoc(wire: seq<Sent>, x: Sent, ws: nat)
    ensures Stream(wire + [x], ws) == Stream(wire, ws) + (if x.ws == ws && x.frame.Event? then [x.frame.m] else [])
  {
    assert (wire + [x])[..|wire|] == wire;
  }

  lemma {:induction false} StreamOfSendAll(rs: seq<nat>, m: Msg, ws: nat)
    requires NoDup(rs)
    ensures Stream(SendAll(rs, Event(m)), ws) == if ws in rs then [m] else []
  {
    if rs != [] {
      var n := |rs| - 1;
      var before, last := rs[..n], rs[n];
      StreamOfSendAll(before, m, ws);
      SendAllSnoc(before, last, Event(m));
      StreamSnoc(SendAll(before, Event(m)), Sent(last, Event(m)), ws);
      MemberOfAppended(before, last, true, ws);
      assert rs == before + [last] && last !in before;
    }
  }

  /** The events a step puts up for delivery, in the host's order, whoever receives them. */
  function Announced(s: HostState, e: Input): seq<Msg> {
    match e.what
    case Message(ws, m) =>
      if HasRole(s.conns, ws, "bridge") && m.typ != "ping" && m.typ != "hello"
         && m.typ != "control_result" && m.typ != "control_request"
      then [if m.typ == "screenshot" then Completed(m, e.now) else m]
      else []
    case HttpCall(r) =>
      if r.Events? && r.sid in s.sessions then AllDefaulted(r.events, e.now) else []
    case _ => []
  }

  function AllAnnounced(s: HostState, secret: string, es: seq<Input>): seq<Msg> {
    if es == [] then []
    else
      var n := |es| - 1;
      AllAnnounced(s, secret, es[..n]) + Announced(Run(s, secret, es[..n]).state, es[n])
  }

  /** A fan-out puts one copy on the wire of each recipient and nothing on any other. */
  lemma DeliverStream(s: HostState, from: Peer, m: Msg, now: nat, c: nat)
    requires NoDup(s.consumers)
    ensures Stream(Deliver(s, from, m, now).log.wire, c) ==
            if c in Offer(s, s.consumers, from, m, now).recipients then [m] else []
  {
    FanOutIsRouting(s, s.consumers, from, m, now);
    StreamOfSendAll(Offer(s, s.consumers, from, m, now).recipients, m, c);
  }

  /** A broadcast reaches each consumer at most once. */
  lemma DeliverOnce(s: HostState, from: Peer, m: Msg, now: nat, ws: nat)
    requires NoDup(s.consumers)
    ensures Stream(Deliver(s, from, m, now).log.wire, ws) in {[], [m]}
  {
    DeliverStream(s, from, m, now, ws);
  }

  /** Frames of a bridge that are events, neither answered nor handled in any other way. */
  predicate Ordinary(typ: string) {
    typ != "ping" && typ != "hello" && typ != "control_result" && typ != "control_request" && typ != "screenshot"
  }

  /** A bridge's ordinary event is put on the wire of exactly the consumers the rule admits, once each. */
  lemma BroadcastReachesExactly(s: HostState, secret: string, ws: nat, m: Msg, now: nat, i: nat)
    requires Coherent(s) && HasRole(s.conns, ws, "bridge") && i < |s.consumers| && Ordinary(m.typ)
    ensures Stream(Step(s, secret, Input(now, Message(ws, m))).log.wire, s.consumers[i]) ==
            if Receives(s, s.consumers, i, Ws(ws), m, now) then [m] else []
  {
    assert Step(s, secret, Input(now, Message(ws, m))) == Deliver(s, Ws(ws), m, now);
    FanOutDecides(s, s.consumers, i, Ws(ws), m, now);
    DeliverStream(s, Ws(ws), m, now, s.consumers[i]);
  }

  /* ---------- posts over HTTP ---------- */

  predicate SameRouting(s: HostState, t: HostState) {
    && s.conns == t.conns && s.consumers == t.consumers
    && s.subscriptions == t.subscriptions && s.capabilities == t.capabilities
  }

  lemma {:induction false} SameTurn(s: HostState, t: HostState, cs: seq<nat>, n: nat)
    requires SameRouting(s, t) && n <= |cs|
    ensures Turn(s, cs, n) == Turn(t, cs, n)
  {
    if n > 0 {
      SameTurn(s, t, cs, n - 1);
    }
  }

  /** The rule for event number `k` of a post: the window has already counted every judged consumer `k` times. */
  predicate ReceivesNth(s: HostState, k: nat, i: nat, from: Peer, m: Msg, now: nat)
    requires i < |s.consumers|
  {
    var cs := s.consumers;
    ReceivesAs(s, cs[i], from, m, Current(s.window, now).count + k * Turn(s, cs, |cs|) + Turn(s, cs, i + 1))
  }

  /** What the rule lets consumer number `i` have of a post. */
  function Share(s: HostState, sid: nat, ms: seq<Msg>, now: nat, i: nat): seq<Msg>
    requires i < |s.consumers|
  {
    if ms == [] then []
    else
      var n := |ms| - 1;
      var d := Defaulted(ms[n], now);
      Share(s, sid, ms[..n], now, i) + (if ReceivesNth(s, n, i, Http(sid), d, now) then [d] else [])
  }

  lemma SameNth(s: HostState, t: HostState, k: nat, i: nat, from: Peer, m: Msg, now: nat)
    requires SameRouting(s, t) && s.window == t.window && i < |s.consumers|
    ensures ReceivesNth(s, k, i, from, m, now) == ReceivesNth(t, k, i, from, m, now)
  {
    var cs := s.consumers;
    SameTurn(s, t, cs, |cs|);
    SameTurn(s, t, cs, i + 1);
    var number := Current(s.window, now).count + k * Turn(s, cs, |cs|) + Turn(s, cs, i + 1);
    assert number == Current(t.window, now).count + k * Turn(t, cs, |cs|) + Turn(t, cs, i + 1);
    SameVerdict(s, t, cs[i], from, m, number);
  }

  lemma {:induction false} SameShare(s: HostState, t: HostState, sid: nat, ms: seq<Msg>, now: nat, i: nat)
    requires SameRouting(s, t) && s.window == t.window && i < |s.consumers|
    ensures Share(s, sid, ms, now, i) == Share(t, sid, ms, now, i)
  {
    if ms != [] {
      var n := |ms| - 1;
      SameShare(s, t, sid, ms[..n], now, i);
      SameNth(s, t, n, i, Http(sid), Defaulted(ms[n], now), now);
    }
  }

  lemma OneMoreTime(n: nat, k: nat)
    ensures (n + 1) * k == n * k + k
  {
  }

  /** A post moves nothing but the window, by one evaluation per event and judged consumer. */
  lemma {:induction false} WindowAfterPost(s: HostState, sid: nat, ms: seq<Msg>, now: nat)
    ensures var t := DeliverAll(s, sid, ms, now).state;
      && t == s.(window := t.window)
      && Current(t.window, now).count == Current(s.window, now).count + |ms| * Turn(s, s.consumers, |s.consumers|)
  {
    if ms != [] {
      var n := |ms| - 1;
      var before := DeliverAll(s, sid, ms[..n], now).state;
      WindowAfterPost(s, sid, ms[..n], now);
      OfferWindow(before, s.consumers, Http(sid), Defaulted(ms[n], now), now);
      SameTurn(s, before, s.consumers, |s.consumers|);
      OneMoreTime(n, Turn(s, s.consumers, |s.consumers|));
    }
  }

  lemma NthVerdict(s: HostState, t: HostState, k: nat, i: nat, from: Peer, m: Msg, now: nat)
    requires SameRouting(s, t) && i < |s.consumers|
    requires Current(t.window, now).count == Current(s.window, now).count + k * Turn(s, s.consumers, |s.consumers|)
    ensures Receives(t, s.consumers, i, from, m, now) == ReceivesNth(s, k, i, from, m, now)
  {
    var cs := s.consumers;
    SameTurn(s, t, cs, i + 1);
    var number := Current(s.window, now).count + k * Turn(s, cs, |cs|) + Turn(s, cs, i + 1);
    assert number == Current(t.window, now).count + Turn(t, cs, i + 1);
    SameVerdict(s, t, cs[i], from, m, number);
  }

  lemma PostedReceives(s: HostState, sid: nat, ms: seq<Msg>, now: nat, i: nat, m: Msg)
    requires i < |s.consumers|
    ensures var before := DeliverAll(s, sid, ms, now).state;
      && before.consumers == s.consumers
      && Receives(before, s.consumers, i, Http(sid), m, now) == ReceivesNth(s, |ms|, i, Http(sid), m, now)
  {
    WindowAfterPost(s, sid, ms, now);
    NthVerdict(s, DeliverAll(s, sid, ms, now).state, |ms|, i, Http(sid), m, now);
  }

  lemma SameVerdict(s: HostState, t: HostState, c: nat, from: Peer, m: Msg, count: nat)
    requires SameRouting(s, t)
    ensures ReceivesAs(s, c, from, m, count) == ReceivesAs(t, c, from, m, count)
  {
  }

  lemma {:induction false} PostStream(s: HostState, sid: nat, ms: seq<Msg>, now: nat, i: nat)
    requires NoDup(s.consumers) && i < |s.consumers|
    ensures Stream(DeliverAll(s, sid, ms, now).log.wire, s.consumers[i]) == Share(s, sid, ms, now, i)
  {
    if ms != [] {
      var n, c := |ms| - 1, s.consumers[i];
      var before, d := DeliverAll(s, sid, ms[..n], now), Defaulted(ms[n], now);
      PostStream(s, sid, ms[..n], now, i);
      PostedReceives(s, sid, ms[..n], now, i, d);
      FanOutDecides(before.state, s.consumers, i, Http(sid), d, now);
      DeliverStream(before.state, Http(sid), d, now, c);
      StreamConcat(before.log.wire, Deliver(before.state, Http(sid), d, now).log.wire, c);
    }
  }

  /** A post over HTTP puts on each consumer's wire exactly the events the rule admits, each once, in order. */
  lemma HttpPostReachesExactly(s: HostState, secret: string, sid: nat, ms: seq<Msg>, now: nat, i: nat)
    requires Coherent(s) && sid in s.sessions && i < |s.consumers|
    ensures Stream(Step(s, secret, Input(now, HttpCall(Events(sid, ms)))).log.wire, s.consumers[i]) ==
            Share(s, sid, ms, now, i)
  {
    var t := Touch(s, sid, now);
    PostStream(t, sid, ms, now, i);
    SameShare(s, t, sid, ms, now, i);
  }

  /** A posted event keeps what it has, is dated and typed if it is not, and counts as info without a level. */
  lemma DefaultsOnlyFillGaps(m: Msg, now: nat)
    ensures var d := Defaulted(m, now);
      && d == m.(timestamp := d.timestamp, level := d.level, typ := d.typ)
      && (m.timestamp != 0 ==> d.timestamp == m.timestamp) && (m.timestamp == 0 ==> d.timestamp == now)
      && (m.level != "" ==> d.level == m.level) && (m.level == "" ==> d.level == "info")
      && (m.typ != "" ==> d.typ == m.typ) && (m.typ == "" ==> d.typ == "log")
  {
  }

  lemma SinglePostReachesExactly(s: HostState, secret: string, sid: nat, m: Msg, now: nat, i: nat)
    requires Coherent(s) && sid in s.sessions && i < |s.consumers|
    ensures Stream(Step(s, secret, Input(now, HttpCall(Events(sid, [m])))).log.wire, s.consumers[i]) ==
            if Receives(s, s.consumers, i, Http(sid), Defaulted(m, now), now) then [Defaulted(m, now)] else []
  {
    HttpPostReachesExactly(s, secret, sid, [m], now, i);
    ShareOfOne(s, sid, m, now, i);
  }

  lemma ShareOfOne(s: HostState, sid: nat, m: Msg, now: nat, i: nat)
    requires i < |s.consumers|
    ensures Share(s, sid, [m], now, i) ==
            if Receives(s, s.consumers, i, Http(sid), Defaulted(m, now), now) then [Defaulted(m, now)] else []
  {
    assert [m][..0] == [] && Share(s, sid, [], now, i) == [];
    assert Share(s, sid, [m], now, i) == Share(s, sid, [m][..0], now, i) +
      (if ReceivesNth(s, 0, i, Http(sid), Defaulted(m, now), now) then [Defaulted(m, now)] else []);
  }

  /* ---------- screenshots ---------- */

  /** The checks a screenshot has to pass besides finding an interested consumer. */
  predicate Acceptable(s: HostState, ws: nat, m: Msg, now: nat) {
    && Ws(ws) in s.capabilities && "screenshot" in s.capabilities[Ws(ws)]
    && !TooSoon(s, ws, now)
    && m.mime != "" && m.data != ""
  }

  /** A screenshot frame is put on the wire of exactly the consumers the rule admits, completed, once each. */
  lemma ScreenshotReachesExactly(s: HostState, secret: string, ws: nat, m: Msg, now: nat, i: nat)
    requires Coherent(s) && HasRole(s.conns, ws, "bridge") && m.typ == "screenshot" && i < |s.consumers|
    ensures Stream(Step(s, secret, Input(now, Message(ws, m))).log.wire, s.consumers[i]) ==
            if Acceptable(s, ws, m, now) && Receives(s, s.consumers, i, Ws(ws), m, now) then [Completed(m, now)] else []
  {
    ScreenshotFrame(s, secret, ws, m, now);
    FanOutDecides(s, s.consumers, i, Ws(ws), m, now);
    ScreenshotStream(s, ws, m, now, s.consumers[i]);
  }

  lemma ScreenshotFrame(s: HostState, secret: string, ws: nat, m: Msg, now: nat)
    requires HasRole(s.conns, ws, "bridge") && m.typ == "screenshot"
    ensures Step(s, secret, Input(now, Message(ws, m))) == Screenshot(s, ws, m, now)
  {
    assert "screenshot"[0] == 's' && "ping"[0] == 'p' && "hello"[0] == 'h';
    assert "control_result"[0] == 'c' && "control_request"[0] == 'c';
  }

  lemma ScreenshotWire(s: HostState, src: nat, m: Msg, now: nat)
    ensures var o, r := Screenshot(s, src, m, now), Offer(s, s.consumers, Ws(src), m, now).recipients;
      if Acceptable(s, src, m, now) && r != [] then o.log.wire == SendAll(r, Event(Completed(m, now)))
      else forall x :: x in o.log.wire ==> !x.frame.Event?
  {
  }

  lemma ScreenshotStream(s: HostState, src: nat, m: Msg, now: nat, c: nat)
    requires NoDup(s.consumers)
    ensures var r := Offer(s, s.consumers, Ws(src), m, now).recipients;
      Stream(Screenshot(s, src, m, now).log.wire, c) ==
      if Acceptable(s, src, m, now) && c in r then [Completed(m, now)] else []
  {
    var r := Offer(s, s.consumers, Ws(src), m, now).recipients;
    ScreenshotWire(s, src, m, now);
    if Acceptable(s, src, m, now) && r != [] {
      FanOutIsRouting(s, s.consumers, Ws(src), m, now);
      StreamOfSendAll(r, Completed(m, now), c);
    } else {
      StreamWithoutEvents(Screenshot(s, src, m, now).log.wire, c);
    }
  }

  /* ---------- the order of events ---------- */

  function AllDefaulted(ms: seq<Msg>, now: nat): seq<Msg> {
    seq(|ms|, i requires 0 <= i < |ms| => Defaulted(ms[i], now))
  }

  lemma OneOrNoneMore(xs: seq<Msg>, all: seq<Msg>, more: seq<Msg>, m: Msg)
    requires Subsequence(xs, all) && more in {[], [m]}
    ensures Subsequence(xs + more, all + [m])
  {
    SubsequenceRefl([m]);
    SubsequenceEmpty([m]);
    SubsequenceConcat(xs, all, more, [m]);
  }

  lemma AllDefaultedSnoc(ms: seq<Msg>, now: nat)
    requires ms != []
    ensures AllDefaulted(ms, now) == AllDefaulted(ms[..|ms| - 1], now) + [Defaulted(ms[|ms| - 1], now)]
  {
  }

  lemma {:induction false} DeliverAllStream(s: HostState, sid: nat, ms: seq<Msg>, now: nat, ws: nat)
    requires NoDup(s.consumers)
    ensures Subsequence(Stream(DeliverAll(s, sid, ms, now).log.wire, ws), AllDefaulted(ms, now))
  {
    if ms != [] {
      var n := |ms| - 1;
      var before, d := DeliverAll(s, sid, ms[..n], now), Defaulted(ms[n], now);
      var last := Deliver(before.state, Http(sid), d, now).log.wire;
      DeliverAllStream(s, sid, ms[..n], now, ws);
      WindowAfterPost(s, sid, ms[..n], now);
      DeliverOnce(before.state, Http(sid), d, now, ws);
      StreamConcat(before.log.wire, last, ws);
      OneOrNoneMore(Stream(before.log.wire, ws), AllDefaulted(ms[..n], now), Stream(last, ws), d);
      AllDefaultedSnoc(ms, now);
    }
  }

  lemma FrameStream(s: HostState, secret: string, e: Input, ws: nat)
    requires Coherent(s) && e.what.Message?
    ensures Subsequence(Stream(Step(s, secret, e).log.wire, ws), Announced(s, e))
  {
    var src, m := e.what.ws, e.what.m;
    var wire := Step(s, secret, e).log.wire;
    assert "bridge"[0] != "consumer"[0] && "ping"[0] == 'p';
    SubsequenceEmpty(Announced(s, e));
    if Announced(s, e) == [] {
      if HasRole(s.conns, src, "consumer") {
        var id := RequestId(m, s.conns[src].clientId, e.now);
        RequestFramesNoEvents(Targets(s), m.(typ := "control_request", id := id));
      }
      StreamWithoutEvents(wire, ws);
    } else {
      SubsequenceRefl(Announced(s, e));
      if m.typ == "screenshot" {
        ScreenshotStream(s, src, m, e.now, ws);
      } else {
        DeliverOnce(s, Ws(src), m, e.now, ws);
      }
    }
  }

  lemma StepStream(s: HostState, secret: string, e: Input, ws: nat)
    requires Coherent(s)
    ensures Subsequence(Stream(Step(s, secret, e).log.wire, ws), Announced(s, e))
  {
    SubsequenceEmpty(Announced(s, e));
    match e.what
    case Message(_, _) => FrameStream(s, secret, e, ws);
    case HttpCall(r) =>
      if r.Events? && r.sid in s.sessions {
        TouchCoherent(s, r.sid, e.now);
        DeliverAllStream(Touch(s, r.sid, e.now), r.sid, r.events, e.now, ws);
      } else {
        assert forall x :: x in Step(s, secret, e).log.wire ==> x.frame.Answer?;
        StreamWithoutEvents(Step(s, secret, e).log.wire, ws);
      }
    case _ =>
  }

  /** Over a whole run, a consumer sees a subsequence of the host's event order. */
  lemma {:induction false} StreamsKeepOrder(s: HostState, secret: string, es: seq<Input>, ws: nat)
    requires Coherent(s)
    ensures Subsequence(Stream(Run(s, secret, es).log.wire, ws), AllAnnounced(s, secret, es))
  {
    if es != [] {
      var n := |es| - 1;
      var before := Run(s, secret, es[..n]);
      StreamsKeepOrder(s, secret, es[..n], ws);
      RunCoherent(s, secret, es[..n]);
      StepStream(before.state, secret, es[n], ws);
      StreamConcat(before.log.wire, Step(before.state, secret, es[n]).log.wire, ws);
      SubsequenceConcat(Stream(before.log.wire, ws), AllAnnounced(s, secret, es[..n]),
                        Stream(Step(before.state, secret, es[n]).log.wire, ws), Announced(before.state, es[n]));
    }
  }

  /** Nobody but a consumer is ever sent an event. */
  lemma OnlyConsumersGetEvents(s: HostState, secret: string, e: Input, c: nat)
    requires Coherent(s) && c !in s.consumers
    ensures Stream(Step(s, secret, e).log.wire, c) == []
  {
    StepStream(s, secret, e, c);
    if Announced(s, e) != [] {
      match e.what
      case Message(src, m) =>
        NotARecipient(s, Ws(src), m, e.now, c);
        if m.typ == "screenshot" {
          ScreenshotFrame(s, secret, src, m, e.now);
          ScreenshotStream(s, src, m, e.now, c);
        } else {
          DeliverStream(s, Ws(src), m, e.now, c);
        }
      case HttpCall(r) => PostSkips(Touch(s, r.sid, e.now), r.sid, r.events, e.now, c);
    }
  }

  lemma NotARecipient(s: HostState, from: Peer, m: Msg, now: nat, c: nat)
    requires c !in s.consumers
    ensures c !in Offer(s, s.consumers, from, m, now).recipients
  {
    FanOutInOrder(s, s.consumers, from, m, now);
    SubsequenceMembers(Offer(s, s.consumers, from, m, now).recipients, s.consumers);
  }

  lemma {:induction false} PostSkips(s: HostState, sid: nat, ms: seq<Msg>, now: nat, c: nat)
    requires NoDup(s.consumers) && c !in s.consumers
    ensures Stream(DeliverAll(s, sid, ms, now).log.wire, c) == []
  {
    if ms != [] {
      var n := |ms| - 1;
      var before, d := DeliverAll(s, sid, ms[..n], now), Defaulted(ms[n], now);
      PostSkips(s, sid, ms[..n], now, c);
      WindowAfterPost(s, sid, ms[..n], now);
      NotARecipient(before.state, Http(sid), d, now, c);
      DeliverStream(before.state, Http(sid), d, now, c);
      StreamConcat(before.log.wire, Deliver(before.state, Http(sid), d, now).log.wire, c);
    }
  }

  /* ---------- the two ways in ---------- */

  /** An event posted over HTTP with its level present is routed like the same event sent as a frame. */
  lemma SameRouteWhenLevelled(s: HostState, cs: seq<nat>, i: nat, from: Peer, m: Msg, now: nat)
    requires i < |cs| && m.level != ""
    ensures Receives(s, cs, i, from, Defaulted(m, now), now) == Receives(s, cs, i, from, m, now)
  {
    UntypedIsNotGated();
  }

  /** Without a level the two ways differ for exactly the consumers whose aggressive filter sees the added "info". */
  lemma RoutesDifferExactly(s: HostState, cs: seq<nat>, i: nat, from: Peer, m: Msg, now: nat)
    requires i < |cs| && m.level == ""
    ensures Receives(s, cs, i, from, Defaulted(m, now), now) <==>
              && Receives(s, cs, i, from, m, now)
              && !(cs[i] in s.subscriptions && s.subscriptions[cs[i]].filter == Aggressive)
  {
    UntypedIsNotGated();
    assert Lower("") == "" && Lower("info") == "info";
    assert "info"[0] == 'i' && "debug"[0] == 'd' && "log"[0] == 'l' && "error"[0] == 'e';
    assert "" != "error" && "" != "debug" && "" != "log" && "" != "info";
    var count := Current(s.window, now).count + Turn(s, cs, i + 1);
    forall f: NoiseFilter
      ensures FilterAccepts(f, "info", count) <==> FilterAccepts(f, "", count) && f != Aggressive
    {
    }
  }

  lemma SenderByCapabilities(s: HostState, c: nat, a: Peer, b: Peer, m: Msg, count: nat)
    requires Lookup(s.capabilities, a) == Lookup(s.capabilities, b)
    ensures ReceivesAs(s, c, a, m, count) == ReceivesAs(s, c, b, m, count)
  {
  }

  lemma RulesAgree(s: HostState, cs: seq<nat>, a: Peer, b: Peer, m: Msg, now: nat, i: nat)
    requires i < |cs| && Lookup(s.capabilities, a) == Lookup(s.capabilities, b)
    ensures Receives(s, cs, i, b, Defaulted(m, now), now) <==>
              && Receives(s, cs, i, a, m, now)
              && !(m.level == "" && cs[i] in s.subscriptions && s.subscriptions[cs[i]].filter == Aggressive)
  {
    SenderByCapabilities(s, cs[i], a, b, m, Current(s.window, now).count + Turn(s, cs, i + 1));
    if m.level == "" {
      RoutesDifferExactly(s, cs, i, b, m, now);
    } else {
      SameRouteWhenLevelled(s, cs, i, b, m, now);
    }
  }

  /**
   The same event sent as a frame by a WebSocket bridge and posted by an HTTP bridge with the same
   capabilities reaches the same consumers; only without a level do those with an aggressive filter miss
   the posted one.
   */
  lemma TwoWaysAgree(s: HostState, secret: string, ws: nat, sid: nat, m: Msg, now: nat, i: nat)
    requires Coherent(s) && HasRole(s.conns, ws, "bridge") && sid in s.sessions && i < |s.consumers| && Ordinary(m.typ)
    requires Lookup(s.capabilities, Ws(ws)) == Lookup(s.capabilities, Http(sid))
    ensures var c := s.consumers[i];
      var sent := Stream(Step(s, secret, Input(now, Message(ws, m))).log.wire, c);
      var posted := Stream(Step(s, secret, Input(now, HttpCall(Events(sid, [m])))).log.wire, c);
      posted != [] <==>
        sent != [] && !(m.level == "" && c in s.subscriptions && s.subscriptions[c].filter == Aggressive)
  {
    BroadcastReachesExactly(s, secret, ws, m, now, i);
    SinglePostReachesExactly(s, secret, sid, m, now, i);
    RulesAgree(s, s.consumers, Ws(ws), Http(sid), m, now, i);
  }
}
