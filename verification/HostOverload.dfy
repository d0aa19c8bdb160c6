/** The overload guard: how much noise filtered consumers can be sent in any stretch of time. */
module HostOverload {
  import opened Common
  import opened Routing
  import opened HostModel
  import opened HostCoherence
  import opened HostFanOut

  /* ---------- what a sequence of filter evaluations looks like ---------- */

  function Before(w0: Window, js: seq<Judgement>): Window {
    if js == [] then w0 else js[|js| - 1].window
  }

  /** Consecutive evaluations of the filter, the first one finding the window `w0`. */
  ghost predicate Chain(w0: Window, js: seq<Judgement>)
  {
    js != [] ==>
      var n := |js| - 1;
      && Chain(w0, js[..n])
      && js[n].window == Evaluate(Before(w0, js[..n]), js[n].now)
      && js[n].passed == FilterAccepts(js[n].filter, js[n].level, js[n].window.count)
  }

  lemma {:induction false} ChainConcat(w0: Window, a: seq<Judgement>, b: seq<Judgement>)
    requires Chain(w0, a) && Chain(Before(w0, a), b)
    ensures Chain(w0, a + b) && Before(w0, a + b) == Before(Before(w0, a), b)
    decreases |b|
  {
    if b == [] {
      assert a + b == a;
    } else {
      var n := |b| - 1;
      assert (a + b)[..|a + b| - 1] == a + b[..n];
      ChainConcat(w0, a, b[..n]);
    }
  }

  /** Something other than an error that was let through to a consumer that asked for filtering. */
  predicate Noise(j: Judgement) {
    j.passed && j.filter != Off && j.level != "error"
  }

  ghost predicate TimesInOrder(js: seq<Judgement>) {
    forall i, j :: 0 <= i < j < |js| ==> js[i].now <= js[j].now
  }

  function NoiseOf(js: seq<Judgement>, start: nat): nat {
    Count(js, j => Noise(j) && j.window.start == start)
  }

  function NoiseBetween(js: seq<Judgement>, lo: nat, hi: nat): nat {
    Count(js, j => Noise(j) && lo <= j.now <= hi)
  }

  function Capped(n: nat): nat {
    if n < WINDOW_LIMIT then n else WINDOW_LIMIT
  }

  /* ---------- one window ---------- */

  lemma {:induction false} NoisePerWindow(w0: Window, js: seq<Judgement>, start: nat)
    requires Chain(w0, js)
    ensures NoiseOf(js, start) <= WINDOW_LIMIT
    ensures Before(w0, js).start == start ==> NoiseOf(js, start) <= Capped(Before(w0, js).count)
    ensures Before(w0, js).start < start ==> NoiseOf(js, start) == 0
  {
    if js != [] {
      var n := |js| - 1;
      NoisePerWindow(w0, js[..n], start);
    }
  }

  /** A window is replaced only by one that starts more than ten seconds later. */
  lemma WindowsAreSpaced(w: Window, now: nat)
    ensures Evaluate(w, now).start != w.start ==> Evaluate(w, now).start > w.start + WINDOW_MS
    ensures Evaluate(w, now).start != w.start ==> Evaluate(w, now) == Window(now, 1)
  {
  }

  /* ---------- any ten seconds ---------- */

  /** The bound on the noise seen so far, by where the current window lies relative to the interval. */
  lemma {:induction false} NoiseSoFar(w0: Window, js: seq<Judgement>, lo: nat, start: nat)
    requires Chain(w0, js) && TimesInOrder(js) && w0.start <= start && forall j :: j in js ==> start <= j.now
    ensures var w, k := Before(w0, js), NoiseBetween(js, lo, lo + WINDOW_MS);
      && (js != [] ==> w.start <= js[|js| - 1].now)
      && (js != [] && js[|js| - 1].now < lo ==> k == 0)
      && (w.start < lo ==> k <= Capped(w.count))
      && (lo <= w.start <= lo + WINDOW_MS ==> k <= WINDOW_LIMIT + Capped(w.count))
      && k <= 2 * WINDOW_LIMIT
  {
    if js != [] {
      var n := |js| - 1;
      assert TimesInOrder(js[..n]);
      assert forall j :: j in js[..n] ==> j in js;
      NoiseSoFar(w0, js[..n], lo, start);
      WindowsAreSpaced(Before(w0, js[..n]), js[n].now);
      if n > 0 {
        assert js[n - 1].now <= js[n].now;
        assert js[..n][|js[..n]| - 1] == js[n - 1];
      }
    }
  }

  /** Any closed stretch of ten seconds lets at most a thousand noisy events through. */
  lemma NoisePerInterval(w0: Window, js: seq<Judgement>, lo: nat, hi: nat)
    requires Chain(w0, js) && TimesInOrder(js) && forall j :: j in js ==> w0.start <= j.now
    requires hi <= lo + WINDOW_MS
    ensures NoiseBetween(js, lo, hi) <= 2 * WINDOW_LIMIT
  {
    NoiseSoFar(w0, js, lo, w0.start);
    CountWeaker(js, lo, hi, lo + WINDOW_MS);
  }

  lemma {:induction false} CountWeaker(js: seq<Judgement>, lo: nat, hi: nat, hi': nat)
    requires hi <= hi'
    ensures NoiseBetween(js, lo, hi) <= NoiseBetween(js, lo, hi')
  {
    if js != [] {
      CountWeaker(js[..|js| - 1], lo, hi, hi');
    }
  }

  /* ---------- the host's runs are such sequences ---------- */

  lemma ChainSnoc(w0: Window, js: seq<Judgement>, j: Judgement)
    requires Chain(w0, js)
    requires j.window == Evaluate(Before(w0, js), j.now)
    requires j.passed == FilterAccepts(j.filter, j.level, j.window.count)
    ensures Chain(w0, js + [j]) && Before(w0, js + [j]) == j.window
  {
    assert (js + [j])[..|js + [j]| - 1] == js;
  }

  lemma {:induction false} OfferChain(s: HostState, cs: seq<nat>, from: Peer, m: Msg, now: nat)
    ensures var f := Offer(s, cs, from, m, now);
      Chain(s.window, f.judged) && Before(s.window, f.judged) == f.window && forall j :: j in f.judged ==> j.now == now
  {
    if cs != [] {
      var n := |cs| - 1;
      var c, before := cs[n], Offer(s, cs[..n], from, m, now);
      OfferChain(s, cs[..n], from, m, now);
      if Judged(s, c) {
        var w := Evaluate(before.window, now);
        var filter := s.subscriptions[c].filter;
        var j := Judgement(now, w, c, filter, m.level, FilterAccepts(filter, m.level, w.count));
        ChainSnoc(s.window, before.judged, j);
        assert OfferOne(s, c, from, m, now, before).judged == before.judged + [j];
      }
    }
  }

  /** A step that judges for `o` continues the chain at the state's window. */
  ghost predicate Continues(s: HostState, o: Outcome, now: nat) {
    && Chain(s.window, o.log.judged)
    && Before(s.window, o.log.judged) == o.state.window
    && forall j :: j in o.log.judged ==> j.now == now
  }

  lemma {:induction false} DeliverAllChain(s: HostState, sid: nat, ms: seq<Msg>, now: nat)
    ensures Continues(s, DeliverAll(s, sid, ms, now), now)
  {
    if ms != [] {
      var n := |ms| - 1;
      var before := DeliverAll(s, sid, ms[..n], now);
      DeliverAllChain(s, sid, ms[..n], now);
      OfferChain(before.state, before.state.consumers, Http(sid), Defaulted(ms[n], now), now);
      ChainConcat(s.window, before.log.judged, Deliver(before.state, Http(sid), Defaulted(ms[n], now), now).log.judged);
    }
  }

  lemma DeliverChain(s: HostState, from: Peer, m: Msg, now: nat)
    ensures Continues(s, Deliver(s, from, m, now), now)
  {
    OfferChain(s, s.consumers, from, m, now);
  }

  lemma ScreenshotChain(s: HostState, ws: nat, m: Msg, now: nat)
    ensures Continues(s, Screenshot(s, ws, m, now), now)
  {
    var f, o := Offer(s, s.consumers, Ws(ws), m, now), Screenshot(s, ws, m, now);
    OfferChain(s, s.consumers, Ws(ws), m, now);
    assert (o.log.judged == [] && o.state == s) || (o.log.judged == f.judged && o.state.window == f.window);
  }

  lemma BridgeRequestChain(s: HostState, ws: nat, m: Msg, now: nat)
    ensures Continues(s, BridgeRequest(s, ws, m, now), now)
  {
    OfferChain(s, s.consumers, Ws(ws), m.(level := "info"), now);
  }

  lemma FrameChain(s: HostState, secret: string, ws: nat, m: Msg, now: nat)
    requires ws in s.conns
    ensures Continues(s, OnMessage(s, secret, ws, m, now), now)
  {
    if s.conns[ws].role == Some("bridge") && m.typ != "ping" {
      DeliverChain(s, Ws(ws), m, now);
      ScreenshotChain(s, ws, m, now);
      BridgeRequestChain(s, ws, m, now);
      assert m.typ == "hello" || m.typ == "control_result" ==>
        BridgeFrame(s, ws, m, now).log.judged == [] && BridgeFrame(s, ws, m, now).state.window == s.window;
      assert Continues(s, BridgeFrame(s, ws, m, now), now);
    } else {
      QuietFrame(s, secret, ws, m, now);
    }
  }

  lemma QuietFrame(s: HostState, secret: string, ws: nat, m: Msg, now: nat)
    requires ws in s.conns && (s.conns[ws].role != Some("bridge") || m.typ == "ping")
    ensures var o := OnMessage(s, secret, ws, m, now); o.log.judged == [] && o.state.window == s.window
  {
  }

  lemma HttpChain(s: HostState, secret: string, r: HttpRequest, now: nat)
    ensures Continues(s, OnHttp(s, secret, r, now), now)
  {
    if r.Events? && r.sid in s.sessions {
      DeliverAllChain(Touch(s, r.sid, now), r.sid, r.events, now);
    } else {
      assert OnHttp(s, secret, r, now).log.judged == [];
    }
  }

  lemma StepChain(s: HostState, secret: string, e: Input)
    ensures Continues(s, Step(s, secret, e), e.now)
  {
    match e.what
    case Message(ws, m) => if ws in s.conns { FrameChain(s, secret, ws, m, e.now); }
    case HttpCall(r) => HttpChain(s, secret, r, e.now);
    case _ => assert Step(s, secret, e).log.judged == [];
  }

  /** Evaluations between two moments, in order, followed by later ones at one moment, are still in order. */
  lemma TimesConcat(a: seq<Judgement>, b: seq<Judgement>, now: nat)
    requires TimesInOrder(a) && forall j :: j in a ==> j.now <= now
    requires forall j :: j in b ==> j.now == now
    ensures TimesInOrder(a + b) && forall j :: j in a + b ==> j.now <= now
  {
    forall i, k | 0 <= i < k < |a + b|
      ensures (a + b)[i].now <= (a + b)[k].now
    {
      if i < |a| {
        assert a[i] in a;
      } else {
        assert b[i - |a|] in b;
      }
      if k >= |a| {
        assert b[k - |a|] in b;
      }
    }
  }

  lemma {:induction false} RunTimes(s: HostState, secret: string, es: seq<Input>, start: nat)
    requires InOrder(start, es)
    ensures var js := Run(s, secret, es).log.judged;
      TimesInOrder(js) && forall j :: j in js ==> start <= j.now && (es != [] ==> j.now <= es[|es| - 1].now)
  {
    if es != [] {
      var n := |es| - 1;
      var before := Run(s, secret, es[..n]);
      RunTimes(s, secret, es[..n], start);
      StepChain(before.state, secret, es[n]);
      EarlierTimes(es, n);
      TimesConcat(before.log.judged, Step(before.state, secret, es[n]).log.judged, es[n].now);
    }
  }

  lemma EarlierTimes(es: seq<Input>, n: nat)
    requires n == |es| - 1 && forall i, j :: 0 <= i < j < |es| ==> es[i].now <= es[j].now
    ensures n > 0 ==> es[..n][|es[..n]| - 1].now <= es[n].now
  {
    if n > 0 {
      assert es[..n][|es[..n]| - 1] == es[n - 1];
    }
  }

  /** The evaluations of a run are one chain, from the window it starts with to the one it ends with. */
  lemma {:induction false} RunChain(s: HostState, secret: string, es: seq<Input>)
    ensures var o := Run(s, secret, es);
      Chain(s.window, o.log.judged) && Before(s.window, o.log.judged) == o.state.window
  {
    if es != [] {
      var n := |es| - 1;
      var before := Run(s, secret, es[..n]);
      RunChain(s, secret, es[..n]);
      StepChain(before.state, secret, es[n]);
      ChainConcat(s.window, before.log.judged, Step(before.state, secret, es[n]).log.judged);
    }
  }

  /** Over a whole run: at most 500 noisy events per window, whoever the consumers are. */
  lemma {:induction false} OverloadPerWindow(start: nat, secret: string, es: seq<Input>, window: nat)
    ensures NoiseOf(Run(Initial(start), secret, es).log.judged, window) <= 500
  {
    RunChain(Initial(start), secret, es);
    NoisePerWindow(Initial(start).window, Run(Initial(start), secret, es).log.judged, window);
  }

  /** Over a whole run: the filter passes at most 1000 noisy events in any ten seconds. */
  lemma {:induction false} OverloadPerInterval(start: nat, secret: string, es: seq<Input>, lo: nat, hi: nat)
    requires InOrder(start, es) && hi <= lo + 10_000
    ensures NoiseBetween(Run(Initial(start), secret, es).log.judged, lo, hi) <= 1000
  {
    RunChain(Initial(start), secret, es);
    RunTimes(Initial(start), secret, es, start);
    NoisePerInterval(Initial(start).window, Run(Initial(start), secret, es).log.judged, lo, hi);
  }

  /* ---------- from the filter's verdicts to frames on the wire ---------- */

  predicate Filtered(s: HostState, c: nat) {
    c in s.subscriptions && s.subscriptions[c].filter != Off
  }

  /** Frames of a step that carry a noisy event to a consumer that asked for filtering. */
  function NoisyFrames(s: HostState, wire: seq<Sent>): nat {
    Count(wire, (x: Sent) => x.frame.Event? && x.frame.m.level != "error" && Filtered(s, x.ws))
  }

  function AnyNoise(js: seq<Judgement>): nat {
    Count(js, j => Noise(j))
  }

  function FilteredAmong(s: HostState, cs: seq<nat>): nat {
    Count(cs, c => Filtered(s, c))
  }

  /** A filtered consumer receives a noisy message only after a judgement that let it through. */
  lemma {:induction false} OfferNoise(s: HostState, cs: seq<nat>, from: Peer, m: Msg, now: nat)
    requires m.level != "error"
    ensures FilteredAmong(s, Offer(s, cs, from, m, now).recipients) <= AnyNoise(Offer(s, cs, from, m, now).judged)
  {
    if cs != [] {
      var n := |cs| - 1;
      var c, before, f := cs[n], Offer(s, cs[..n], from, m, now), Offer(s, cs, from, m, now);
      OfferNoise(s, cs[..n], from, m, now);
      if Judged(s, c) {
        var j := f.judged[|f.judged| - 1];
        assert f.judged == before.judged + [j] && j.level == m.level && j.filter == s.subscriptions[c].filter;
        CountConcat(before.judged, [j], (x: Judgement) => Noise(x));
        assert f.recipients == before.recipients || (j.passed && f.recipients == before.recipients + [c]);
        CountConcat(before.recipients, [c], x => Filtered(s, x));
        assert AnyNoise(f.judged) == AnyNoise(before.judged) + AnyNoise([j]);
        assert FilteredAmong(s, before.recipients + [c]) == FilteredAmong(s, before.recipients) + FilteredAmong(s, [c]);
        assert AnyNoise([j]) == if Noise(j) then 1 else 0;
        assert FilteredAmong(s, [c]) == if Filtered(s, c) then 1 else 0;
      } else {
        assert f.judged == before.judged;
        assert f.recipients == before.recipients || f.recipients == before.recipients + [c];
        CountConcat(before.recipients, [c], x => Filtered(s, x));
        assert FilteredAmong(s, before.recipients + [c]) == FilteredAmong(s, before.recipients) + FilteredAmong(s, [c]);
        if f.recipients != before.recipients {
          assert !Filtered(s, c);
          assert FilteredAmong(s, [c]) == 0;
        }
      }
    }
  }

  lemma {:induction false} NoisyFramesOfSendAll(s: HostState, rs: seq<nat>, m: Msg)
    ensures NoisyFrames(s, SendAll(rs, Event(m))) == if m.level == "error" then 0 else FilteredAmong(s, rs)
  {
    if rs != [] {
      var n := |rs| - 1;
      NoisyFramesOfSendAll(s, rs[..n], m);
      assert SendAll(rs, Event(m))[..n] == SendAll(rs[..n], Event(m));
    }
  }

  lemma {:induction false} NoNoisyFrames(s: HostState, wire: seq<Sent>)
    requires forall x :: x in wire ==> !x.frame.Event?
    ensures NoisyFrames(s, wire) == 0
  {
    if wire != [] {
      NoNoisyFrames(s, wire[..|wire| - 1]);
    }
  }

  lemma DeliverNoise(s: HostState, from: Peer, m: Msg, now: nat)
    ensures var o := Deliver(s, from, m, now); NoisyFrames(s, o.log.wire) <= AnyNoise(o.log.judged)
  {
    NoisyFramesOfSendAll(s, Offer(s, s.consumers, from, m, now).recipients, m);
    if m.level != "error" {
      OfferNoise(s, s.consumers, from, m, now);
    }
  }

  lemma ScreenshotNoise(s: HostState, ws: nat, m: Msg, now: nat)
    ensures var o := Screenshot(s, ws, m, now); NoisyFrames(s, o.log.wire) <= AnyNoise(o.log.judged)
  {
    var f, o, done := Offer(s, s.consumers, Ws(ws), m, now), Screenshot(s, ws, m, now), Completed(m, now);
    NoisyFramesOfSendAll(s, f.recipients, done);
    assert done.level == "error" <==> m.level == "error" by {
      assert "info"[0] == 'i' && "error"[0] == 'e';
    }
    if m.level != "error" {
      OfferNoise(s, s.consumers, Ws(ws), m, now);
    }
    if o.log.wire != SendAll(f.recipients, Event(done)) {
      NoNoisyFrames(s, o.log.wire);
    } else if o.log.shots == [] {
      NoNoisyFrames(s, o.log.wire);
    }
  }

  lemma {:induction false} DeliverAllNoise(s: HostState, sid: nat, ms: seq<Msg>, now: nat)
    ensures var o := DeliverAll(s, sid, ms, now);
      o.state.subscriptions == s.subscriptions && NoisyFrames(s, o.log.wire) <= AnyNoise(o.log.judged)
  {
    if ms != [] {
      var n := |ms| - 1;
      var before := DeliverAll(s, sid, ms[..n], now);
      var last := Deliver(before.state, Http(sid), Defaulted(ms[n], now), now);
      DeliverAllNoise(s, sid, ms[..n], now);
      DeliverNoise(before.state, Http(sid), Defaulted(ms[n], now), now);
      assert NoisyFrames(before.state, last.log.wire) == NoisyFrames(s, last.log.wire) by {
        SameNoisyFrames(before.state, s, last.log.wire);
      }
      NoisyFramesConcat(s, before.log.wire, last.log.wire);
      AnyNoiseConcat(before.log.judged, last.log.judged);
    }
  }

  lemma {:induction false} SameNoisyFrames(s: HostState, t: HostState, wire: seq<Sent>)
    requires s.subscriptions == t.subscriptions
    ensures NoisyFrames(s, wire) == NoisyFrames(t, wire)
  {
    if wire != [] {
      SameNoisyFrames(s, t, wire[..|wire| - 1]);
    }
  }

  lemma NoisyFramesConcat(s: HostState, a: seq<Sent>, b: seq<Sent>)
    ensures NoisyFrames(s, a + b) == NoisyFrames(s, a) + NoisyFrames(s, b)
  {
    CountConcat(a, b, (x: Sent) => x.frame.Event? && x.frame.m.level != "error" && Filtered(s, x.ws));
  }

  lemma AnyNoiseConcat(a: seq<Judgement>, b: seq<Judgement>)
    ensures AnyNoise(a + b) == AnyNoise(a) + AnyNoise(b)
  {
    CountConcat(a, b, (j: Judgement) => Noise(j));
  }

  lemma FrameNoise(s: HostState, secret: string, ws: nat, m: Msg, now: nat)
    requires ws in s.conns
    ensures var o := OnMessage(s, secret, ws, m, now); NoisyFrames(s, o.log.wire) <= AnyNoise(o.log.judged)
  {
    var o := OnMessage(s, secret, ws, m, now);
    var bridge := s.conns[ws].role == Some("bridge") && m.typ != "ping";
    if bridge && m.typ != "hello" && m.typ != "control_result" && m.typ != "control_request" {
      if m.typ == "screenshot" {
        ScreenshotNoise(s, ws, m, now);
      } else {
        DeliverNoise(s, Ws(ws), m, now);
      }
    } else {
      if s.conns[ws].role == Some("consumer") {
        RequestFramesNoEvents(Targets(s), m.(typ := "control_request", id := RequestId(m, s.conns[ws].clientId, now)));
      }
      NoEventFrames(s, secret, ws, m, now);
      NoNoisyFrames(s, o.log.wire);
    }
  }

  lemma NoEventFrames(s: HostState, secret: string, ws: nat, m: Msg, now: nat)
    requires ws in s.conns
    requires s.conns[ws].role == Some("bridge") ==>
               m.typ == "ping" || m.typ == "hello" || m.typ == "control_result" || m.typ == "control_request"
    ensures forall x :: x in OnMessage(s, secret, ws, m, now).log.wire ==> !x.frame.Event?
  {
    if s.conns[ws].role == Some("consumer") {
      RequestFramesNoEvents(Targets(s), m.(typ := "control_request", id := RequestId(m, s.conns[ws].clientId, now)));
    }
  }

  lemma HttpNoise(s: HostState, secret: string, r: HttpRequest, now: nat)
    ensures var o := OnHttp(s, secret, r, now); NoisyFrames(s, o.log.wire) <= AnyNoise(o.log.judged)
  {
    if r.Events? && r.sid in s.sessions {
      var t := Touch(s, r.sid, now);
      DeliverAllNoise(t, r.sid, r.events, now);
      SameNoisyFrames(s, t, DeliverAll(t, r.sid, r.events, now).log.wire);
    } else {
      NoNoisyFrames(s, OnHttp(s, secret, r, now).log.wire);
    }
  }

  lemma StepNoise(s: HostState, secret: string, e: Input)
    ensures var o := Step(s, secret, e); NoisyFrames(s, o.log.wire) <= AnyNoise(o.log.judged)
  {
    match e.what
    case Message(ws, m) => if ws in s.conns { FrameNoise(s, secret, ws, m, e.now); }
    case HttpCall(r) => HttpNoise(s, secret, r, e.now);
    case _ =>
  }

  /** Noisy frames sent by a run to filtering consumers between two moments. */
  function NoisyTraffic(s: HostState, secret: string, es: seq<Input>, lo: nat, hi: nat): nat {
    if es == [] then 0
    else
      var n := |es| - 1;
      var before := Run(s, secret, es[..n]).state;
      NoisyTraffic(s, secret, es[..n], lo, hi) +
      (if lo <= es[n].now <= hi then NoisyFrames(before, Step(before, secret, es[n]).log.wire) else 0)
  }

  lemma {:induction false} AllAtOnce(js: seq<Judgement>, now: nat, lo: nat, hi: nat)
    requires forall j :: j in js ==> j.now == now
    ensures NoiseBetween(js, lo, hi) == if lo <= now <= hi then AnyNoise(js) else 0
  {
    if js != [] {
      var n := |js| - 1;
      assert js[n] in js;
      AllAtOnce(js[..n], now, lo, hi);
    }
  }

  lemma {:induction false} TrafficIsJudged(s: HostState, secret: string, es: seq<Input>, lo: nat, hi: nat)
    ensures NoisyTraffic(s, secret, es, lo, hi) <= NoiseBetween(Run(s, secret, es).log.judged, lo, hi)
  {
    if es != [] {
      var n := |es| - 1;
      var before := Run(s, secret, es[..n]);
      var last := Step(before.state, secret, es[n]);
      TrafficIsJudged(s, secret, es[..n], lo, hi);
      StepNoise(before.state, secret, es[n]);
      StepChain(before.state, secret, es[n]);
      AllAtOnce(last.log.judged, es[n].now, lo, hi);
      CountConcat(before.log.judged, last.log.judged, (j: Judgement) => Noise(j) && lo <= j.now <= hi);
      assert NoiseBetween(before.log.judged + last.log.judged, lo, hi) ==
             NoiseBetween(before.log.judged, lo, hi) + NoiseBetween(last.log.judged, lo, hi);
    }
  }

  /** All consumers that asked for filtering together are sent at most 1000 noisy events in any ten seconds. */
  lemma {:induction false} TrafficBound(start: nat, secret: string, es: seq<Input>, lo: nat, hi: nat)
    requires InOrder(start, es) && hi <= lo + 10_000
    ensures NoisyTraffic(Initial(start), secret, es, lo, hi) <= 1000
  {
    TrafficIsJudged(Initial(start), secret, es, lo, hi);
    OverloadPerInterval(start, secret, es, lo, hi);
  }
}
