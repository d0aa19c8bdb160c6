/** Runs of the host that show that its bounds are reached and its surprises happen. */
module HostScenario {
  import opened Common
  import opened Routing
  import opened HostModel
  import opened HostCoherence
  import opened HostFanOut
  import opened HostOrder
  import opened HostOverload
  import opened HostScreenshots
  import HostStreams

  const BLANK := Msg("", "", None, 0, "", "", "", "", Rest("", "", "", [], None, "", false, "", "", 0))

  function AuthFrame(secret: string, role: string): Msg {
    BLANK.(typ := "auth", rest := BLANK.rest.(secret := secret, role := role, clientId := role))
  }

  function HelloFrame(capabilities: seq<string>): Msg {
    BLANK.(typ := "hello", rest := BLANK.rest.(capabilities := capabilities))
  }

  function SubscribeFrame(level: string, filter: string): Msg {
    BLANK.(typ := "subscribe", rest := BLANK.rest.(levels := Some([level]), llmFilter := filter))
  }

  /** A WebSocket bridge that takes screenshots, a consumer that filters, and an HTTP bridge, all at once. */
  function Setup(start: nat, secret: string): seq<Input> {
    [Input(start, Connection), Input(start, Message(0, AuthFrame(secret, "bridge"))),
     Input(start, Message(0, HelloFrame(["screenshot"]))),
     Input(start, Connection), Input(start, Message(1, AuthFrame(secret, "consumer"))),
     Input(start, Message(1, SubscribeFrame("trace", "minimal"))),
     Input(start, HttpCall(Connect(secret, "")))]
  }

  function Bridged(start: nat): HostState {
    Initial(start).(conns := map[0 := Conn(true, Some("bridge"), "bridge")], nextConn := 1,
                    bridges := [Ws(0)], capabilities := map[Ws(0) := ["screenshot"]])
  }

  function Consumed(start: nat): HostState {
    Bridged(start).(conns := map[0 := Conn(true, Some("bridge"), "bridge"),
                                 1 := Conn(true, Some("consumer"), "consumer")],
                    nextConn := 2, consumers := [1], subscriptions := map[1 := Subscription(["trace"], [], Minimal)])
  }

  function Scene(start: nat): HostState {
    Consumed(start).(bridges := [Ws(0), Http(0)], sessions := map[0 := Session([], start)], nextSid := 1)
  }

  /** Running one more input. */
  lemma RunSnoc(s: HostState, secret: string, es: seq<Input>, e: Input)
    ensures var before := Run(s, secret, es);
      var last := Step(before.state, secret, e);
      Run(s, secret, es + [e]) == Outcome(last.state, Join(before.log, last.log))
  {
    assert (es + [e])[..|es|] == es;
  }

  /** The run so far ends in `t` and has evaluated no filter. */
  ghost predicate Reaches(start: nat, secret: string, es: seq<Input>, t: HostState) {
    var o := Run(Initial(start), secret, es);
    o.state == t && o.log.judged == []
  }

  lemma ReachesMore(start: nat, secret: string, es: seq<Input>, t: HostState, e: Input)
    requires Reaches(start, secret, es, t) && Step(t, secret, e).log.judged == []
    ensures Reaches(start, secret, es + [e], Step(t, secret, e).state)
  {
    RunSnoc(Initial(start), secret, es, e);
  }

  lemma BridgeJoins(start: nat, secret: string)
    ensures Reaches(start, secret, Setup(start, secret)[..3], Bridged(start))
  {
    var es, s := Setup(start, secret), Initial(start);
    assert es[..0] == [] && Run(s, secret, []) == Silent(s);
    assert es[..1] == [] + [es[0]] && es[..2] == es[..1] + [es[1]] && es[..3] == es[..2] + [es[2]];
    ReachesMore(start, secret, [], s, es[0]);
    var s1 := s.(conns := map[0 := Conn(true, None, "")], nextConn := 1);
    assert Step(s, secret, es[0]).state == s1;
    ReachesMore(start, secret, es[..1], s1, es[1]);
    var s2 := s.(conns := map[0 := Conn(true, Some("bridge"), "bridge")], nextConn := 1, bridges := [Ws(0)]);
    assert Step(s1, secret, es[1]).state == s2;
    ReachesMore(start, secret, es[..2], s2, es[2]);
    assert "hello"[0] == 'h' && "ping"[0] == 'p';
    assert Step(s2, secret, es[2]).state == Bridged(start);
  }

  lemma ConsumerConnects(start: nat, secret: string)
    ensures var s, o := Bridged(start), Step(Bridged(start), secret, Input(start, Connection));
      o == Silent(s.(conns := s.conns[1 := Conn(true, None, "")], nextConn := 2))
  {
  }

  lemma ConsumerAuthenticates(start: nat, secret: string)
    ensures var s := Bridged(start).(conns := Bridged(start).conns[1 := Conn(true, None, "")], nextConn := 2);
      var o := Step(s, secret, Input(start, Message(1, AuthFrame(secret, "consumer"))));
      && o.state == Consumed(start).(subscriptions := map[])
      && o.log.judged == []
  {
    assert "consumer"[0] != "bridge"[0];
    assert Bridged(start).conns[1 := Conn(true, None, "")][1 := Conn(true, Some("consumer"), "consumer")] ==
           Consumed(start).conns;
  }

  lemma ConsumerSubscribes(start: nat, secret: string)
    ensures var o := Step(Consumed(start).(subscriptions := map[]), secret,
                          Input(start, Message(1, SubscribeFrame("trace", "minimal"))));
      o.state == Consumed(start) && o.log.judged == []
  {
    assert "consumer"[0] != "bridge"[0] && "subscribe"[0] == 's' && "ping"[0] == 'p' && Lower("minimal") == "minimal";
  }

  lemma ConsumerJoins(start: nat, secret: string)
    ensures Reaches(start, secret, Setup(start, secret)[..6], Consumed(start))
  {
    var es, s := Setup(start, secret), Bridged(start);
    BridgeJoins(start, secret);
    assert es[..4] == es[..3] + [es[3]] && es[..5] == es[..4] + [es[4]] && es[..6] == es[..5] + [es[5]];
    ConsumerConnects(start, secret);
    ReachesMore(start, secret, es[..3], s, es[3]);
    ConsumerAuthenticates(start, secret);
    ReachesMore(start, secret, es[..4], s.(conns := s.conns[1 := Conn(true, None, "")], nextConn := 2), es[4]);
    ConsumerSubscribes(start, secret);
    ReachesMore(start, secret, es[..5], Consumed(start).(subscriptions := map[]), es[5]);
  }

  lemma SceneIsReached(start: nat, secret: string)
    ensures Reaches(start, secret, Setup(start, secret), Scene(start)) && Coherent(Scene(start))
  {
    var es := Setup(start, secret);
    ConsumerJoins(start, secret);
    assert es == es[..6] + [es[6]];
    ReachesMore(start, secret, es[..6], Consumed(start), es[6]);
    assert Step(Consumed(start), secret, es[6]).state == Scene(start);
    ReachableCoherent(start, secret, es);
  }

  /* ---------- the overload bound is reached ---------- */

  const WARNING := BLANK.(typ := "log", level := "warn")

  function Warnings(n: nat): seq<Msg> {
    seq(n, i => WARNING)
  }

  lemma WarningsSnoc(n: nat)
    requires n > 0
    ensures Warnings(n) == Warnings(n - 1) + [WARNING]
  {
  }

  predicate OneListener(s: HostState) {
    s.consumers == [1] && IsOpen(s.conns, 1) && Lookup(s.subscriptions, 1) == Some(Subscription(["trace"], [], Minimal))
  }

  lemma OneNoise(js: seq<Judgement>)
    requires |js| == 1 && Noise(js[0])
    ensures AnyNoise(js) == 1
  {
    assert js == [js[0]];
    CountOne(js[0], (j: Judgement) => Noise(j));
  }

  lemma WarningPasses(count: nat)
    requires count <= WINDOW_LIMIT
    ensures FilterAccepts(Minimal, "warn", count)
  {
    assert Lower("warn") == "warn" && "warn"[0] == 'w' && "debug"[0] == 'd' && "log"[0] == 'l';
  }

  /** One warning is evaluated once, for the one listener, and passes while the window has room. */
  lemma OneWarning(s: HostState, sid: nat, now: nat)
    requires OneListener(s) && Current(s.window, now).count < WINDOW_LIMIT
    ensures var o := Deliver(s, Http(sid), Defaulted(WARNING, now), now);
      o.state == s.(window := Evaluate(s.window, now)) && AnyNoise(o.log.judged) == 1
  {
    var m, w := Defaulted(WARNING, now), Evaluate(s.window, now);
    WarningPasses(w.count);
    assert "warn"[0] == 'w' && "error"[0] == 'e';
    assert [1][..0] == [] && Offer(s, [], Http(sid), m, now) == FanOut(s.window, [], []);
    var f := Offer(s, [1], Http(sid), m, now);
    assert f == OfferOne(s, 1, Http(sid), m, now, Offer(s, [1][..0], Http(sid), m, now));
    assert f.judged == [] + [Judgement(now, w, 1, Minimal, "warn", true)];
    OneNoise(f.judged);
  }

  /** Two evaluations at one moment fall into the same window. */
  lemma EvaluatedOnce(w: Window, now: nat)
    ensures Current(Evaluate(w, now), now) == Evaluate(w, now)
    ensures Evaluate(w, now) == Current(w, now).(count := Current(w, now).count + 1)
  {
  }

  lemma PostSnoc(s: HostState, sid: nat, ms: seq<Msg>, m: Msg, now: nat)
    ensures var before := DeliverAll(s, sid, ms, now);
      var last := Deliver(before.state, Http(sid), Defaulted(m, now), now);
      DeliverAll(s, sid, ms + [m], now) == Outcome(last.state, Join(before.log, last.log))
  {
    assert (ms + [m])[..|ms|] == ms;
  }

  /** After `n` warnings: only the window has moved, within itself, and all of them passed. */
  ghost predicate Passed(s: HostState, o: Outcome, n: nat, now: nat) {
    var c := Current(s.window, now);
    && o.state == s.(window := if n == 0 then s.window else c.(count := c.count + n))
    && AnyNoise(o.log.judged) == n
  }

  lemma OneMorePasses(s: HostState, before: Outcome, sid: nat, n: nat, now: nat)
    requires OneListener(s) && Passed(s, before, n, now) && Current(s.window, now).count + n < WINDOW_LIMIT
    ensures var last := Deliver(before.state, Http(sid), Defaulted(WARNING, now), now);
      Passed(s, Outcome(last.state, Join(before.log, last.log)), n + 1, now)
  {
    var last := Deliver(before.state, Http(sid), Defaulted(WARNING, now), now);
    EvaluatedOnce(before.state.window, now);
    OneWarning(before.state, sid, now);
    AnyNoiseConcat(before.log.judged, last.log.judged);
  }

  /** So does a post of warnings, as a whole, if the window has room for all of them. */
  lemma {:induction false} ManyWarnings(s: HostState, sid: nat, n: nat, now: nat)
    requires OneListener(s) && Current(s.window, now).count + n <= WINDOW_LIMIT
    ensures Passed(s, DeliverAll(s, sid, Warnings(n), now), n, now)
  {
    if n > 0 {
      ManyWarnings(s, sid, n - 1, now);
      WarningsSnoc(n);
      PostSnoc(s, sid, Warnings(n - 1), WARNING, now);
      OneMorePasses(s, DeliverAll(s, sid, Warnings(n - 1), now), sid, n - 1, now);
    }
  }

  lemma EventsStep(s: HostState, secret: string, sid: nat, ms: seq<Msg>, now: nat)
    requires sid in s.sessions
    ensures var o := Step(s, secret, Input(now, HttpCall(Events(sid, ms))));
      var d := DeliverAll(Touch(s, sid, now), sid, ms, now);
      o.state == d.state && o.log.judged == d.log.judged
  {
  }

  lemma PostOfWarnings(s: HostState, secret: string, n: nat, now: nat)
    requires OneListener(s) && 0 in s.sessions && Current(s.window, now).count + n <= WINDOW_LIMIT && n > 0
    ensures var o := Step(s, secret, Input(now, HttpCall(Events(0, Warnings(n)))));
      && OneListener(o.state) && 0 in o.state.sessions && AnyNoise(o.log.judged) == n
      && o.state.window == Current(s.window, now).(count := Current(s.window, now).count + n)
  {
    EventsStep(s, secret, 0, Warnings(n), now);
    ManyWarnings(Touch(s, 0, now), 0, n, now);
  }

  function Post(at: nat): Input {
    Input(at, HttpCall(Events(0, Warnings(500))))
  }

  function Burst(start: nat, secret: string): seq<Input> {
    Setup(start, secret) + [Post(start + 10_000)] + [Post(start + 10_001)]
  }

  /** The first post fills the window that is about to end, the second one the next. */
  lemma TwoPosts(start: nat, secret: string)
    requires OneListener(Scene(start))
    ensures var o0 := Step(Scene(start), secret, Post(start + 10_000));
      var o1 := Step(o0.state, secret, Post(start + 10_001));
      AnyNoise(o0.log.judged) == AnyNoise(o1.log.judged) == 500
  {
    var s := Scene(start);
    assert Current(s.window, start + 10_000) == Window(start, 0);
    PostOfWarnings(s, secret, 500, start + 10_000);
    var t := Step(s, secret, Post(start + 10_000)).state;
    assert Current(t.window, start + 10_001) == Window(start + 10_001, 0);
    PostOfWarnings(t, secret, 500, start + 10_001);
  }

  lemma OneMoreJudged(s: HostState, secret: string, es: seq<Input>, e: Input)
    ensures var before, after := Run(s, secret, es), Run(s, secret, es + [e]);
      var last := Step(before.state, secret, e);
      after.state == last.state && after.log.judged == before.log.judged + last.log.judged
  {
    RunSnoc(s, secret, es, e);
  }

  lemma TwoMore(start: nat, secret: string, es: seq<Input>, s: HostState, e0: Input, e1: Input)
    requires Reaches(start, secret, es, s)
    ensures var o0 := Step(s, secret, e0);
      Run(Initial(start), secret, (es + [e0]) + [e1]).log.judged ==
      o0.log.judged + Step(o0.state, secret, e1).log.judged
  {
    var a := Step(s, secret, e0).log.judged;
    OneMoreJudged(Initial(start), secret, es, e0);
    assert [] + a == a;
    OneMoreJudged(Initial(start), secret, es + [e0], e1);
  }

  /** The bound of 1000 per ten seconds is reached, within two milliseconds, where one window gives way to the next. */
  lemma OverloadBoundIsReached(start: nat, secret: string)
    ensures InOrder(start, Burst(start, secret))
    ensures var judged := Run(Initial(start), secret, Burst(start, secret)).log.judged;
      NoiseBetween(judged, start + 10_000, start + 10_001) == 1000
  {
    var s, e0, e1 := Scene(start), Post(start + 10_000), Post(start + 10_001);
    SceneIsReached(start, secret);
    TwoMore(start, secret, Setup(start, secret), s, e0, e1);
    TwoPosts(start, secret);
    StepChain(s, secret, e0);
    StepChain(Step(s, secret, e0).state, secret, e1);
    NoiseOfBoth(Step(s, secret, e0).log.judged, start + 10_000,
                Step(Step(s, secret, e0).state, secret, e1).log.judged, start + 10_001);
    BurstInOrder(start, secret);
  }

  lemma BurstInOrder(start: nat, secret: string)
    ensures InOrder(start, Burst(start, secret))
  {
    var es := Burst(start, secret);
    assert |es| == 9 && es[7].now == start + 10_000 && es[8].now == start + 10_001;
    assert forall i :: 0 <= i < 7 ==> es[i] == Setup(start, secret)[i] && es[i].now == start;
  }

  lemma NoiseOfBoth(a: seq<Judgement>, lo: nat, b: seq<Judgement>, hi: nat)
    requires lo <= hi && (forall j :: j in a ==> j.now == lo) && (forall j :: j in b ==> j.now == hi)
    ensures NoiseBetween(a + b, lo, hi) == AnyNoise(a) + AnyNoise(b)
  {
    AllAtOnce(a, lo, lo, hi);
    AllAtOnce(b, hi, lo, hi);
    CountConcat(a, b, (j: Judgement) => Noise(j) && lo <= j.now <= hi);
  }

  /* ---------- a refusal that costs ---------- */

  function Picture(mime: string, data: string): Msg {
    BLANK.(typ := "screenshot", mime := mime, data := data)
  }

  /**
   In the reachable scene, a screenshot without mime is refused, and the complete one sent a millisecond
   later is refused for it.
   */
  lemma IncompleteRefusalHappens(start: nat, secret: string)
    requires start > 0
    ensures Reaches(start, secret, Setup(start, secret), Scene(start))
    ensures var s := Scene(start);
      var o := Step(s, secret, Input(start, Message(0, Picture("", "x"))));
      && o.log.wire == [Sent(0, Notice(InvalidFormat))]
      && Step(o.state, secret, Input(start + 1, Message(0, Picture("image/png", "x")))).log.wire ==
           [Sent(0, Notice(RateLimit(1999)))]
      && !TooSoon(s, 0, start + 1)
  {
    var s, bad := Scene(start), Picture("", "x");
    SceneIsReached(start, secret);
    PictureIsWanted(start);
    HostStreams.ScreenshotFrame(s, secret, 0, bad, start);
    IncompleteRefusalCosts(s, 0, bad, start, Picture("image/png", "x"), start + 1);
    InterestingExactly(s, 0, bad, start);
    var t := Screenshot(s, 0, bad, start).state;
    HostStreams.ScreenshotFrame(t, secret, 0, Picture("image/png", "x"), start + 1);
  }

  lemma PictureIsAdmitted()
    ensures Admits(Some(Subscription(["trace"], [], Minimal)), "screenshot", "", Some(["screenshot"]), 1)
  {
    assert Lower("screenshot") == "screenshot" && Lower("") == "" && "debug" != "" && "log" != "";
    assert LowerAll(["screenshot"]) == ["screenshot"] && "screenshot" in ["screenshot"];
    assert LowerAll([]) == [] && NonEmpty([]) == [];
    TraceTakesEverything("info");
  }

  lemma PictureIsWanted(start: nat)
    ensures Interesting(Scene(start), 0, Picture("", "x"), start)
  {
    var s, m := Scene(start), Picture("", "x");
    PictureIsAdmitted();
    assert Turn(s, [1], 1) == Turn(s, [1], 0) + 1 == 1 && Current(s.window, start).count == 0;
    assert ReceivesAs(s, 1, Ws(0), m, 1);
    assert Receives(s, s.consumers, 0, Ws(0), m, start);
  }

  lemma TraceTakesEverything(level: string)
    ensures IncludesLevel(Some(["trace"]), level)
  {
    assert LevelRank("trace") == 3 by {
      assert Lower("trace") == "trace" && LEVEL_ORDER[3] == "trace" && "trace"[0] == 't';
      assert LEVEL_ORDER[0][0] == 'e' && LEVEL_ORDER[1][0] == 'w' && LEVEL_ORDER[2][0] == 'i';
    }
    assert "trace" in ["trace"];
  }
}
