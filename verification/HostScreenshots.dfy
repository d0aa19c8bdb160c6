/** The screenshot rate limit of a WebSocket bridge. */
module HostScreenshots {
  import opened Common
  import opened Routing
  import opened HostModel
  import opened HostCoherence
  import opened HostFanOut
  import opened HostStreams
  import opened HostControl

  /** When the bridge's screenshots were forwarded. */
  function ShotTimes(shots: seq<Shot>, ws: nat): seq<nat> {
    if shots == [] then []
    else
      var n := |shots| - 1;
      ShotTimes(shots[..n], ws) + (if shots[n].ws == ws then [shots[n].at] else [])
  }

  /** Consecutive times are at least the limit apart. */
  ghost predicate Spaced(ts: seq<nat>) {
    forall i :: 0 < i < |ts| ==> ts[i - 1] + SCREENSHOT_RATE_LIMIT_MS <= ts[i]
  }

  lemma {:induction false} ShotTimesConcat(a: seq<Shot>, b: seq<Shot>, ws: nat)
    ensures ShotTimes(a + b, ws) == ShotTimes(a, ws) + ShotTimes(b, ws)
    decreases |b|
  {
    if b == [] {
      assert a + b == a;
    } else {
      assert (a + b)[..|a + b| - 1] == a + b[..|b| - 1];
      ShotTimesConcat(a, b[..|b| - 1], ws);
    }
  }

  /** Any closed interval of L ms holds at most L / 2000 + 1 spaced moments. */
  lemma {:induction false} SpacedIsRare(ts: seq<nat>, lo: nat, hi: nat)
    requires Spaced(ts) && lo <= hi
    ensures Count(ts, t => lo <= t <= hi) <= (hi - lo) / SCREENSHOT_RATE_LIMIT_MS + 1
  {
    SpacedCount(ts, lo, hi);
  }

  lemma {:induction false} SpacedCount(ts: seq<nat>, lo: nat, hi: nat)
    requires Spaced(ts) && lo <= hi
    ensures var k := Count(ts, t => lo <= t <= hi);
      && k * SCREENSHOT_RATE_LIMIT_MS <= hi - lo + SCREENSHOT_RATE_LIMIT_MS
      && (ts != [] && ts[|ts| - 1] < lo ==> k == 0)
      && (ts != [] && lo <= ts[|ts| - 1] <= hi ==>
            k * SCREENSHOT_RATE_LIMIT_MS <= ts[|ts| - 1] - lo + SCREENSHOT_RATE_LIMIT_MS)
  {
    if ts != [] {
      var n := |ts| - 1;
      SpacedCount(ts[..n], lo, hi);
      if n > 0 {
        assert ts[..n][|ts[..n]| - 1] == ts[n - 1];
      }
    }
  }

  /* ---------- one attempt ---------- */

  /** Some consumer is open and admitted by the rule. */
  ghost predicate Interesting(s: HostState, ws: nat, m: Msg, now: nat) {
    exists i :: 0 <= i < |s.consumers| && Receives(s, s.consumers, i, Ws(ws), m, now)
  }

  lemma InterestingExactly(s: HostState, ws: nat, m: Msg, now: nat)
    requires NoDup(s.consumers)
    ensures Interesting(s, ws, m, now) <==> Offer(s, s.consumers, Ws(ws), m, now).recipients != []
  {
    var r := Offer(s, s.consumers, Ws(ws), m, now).recipients;
    FanOutIsRouting(s, s.consumers, Ws(ws), m, now);
    if r != [] {
      SubsequenceMembers(r, s.consumers);
      assert r[0] in r;
      var i :| 0 <= i < |s.consumers| && s.consumers[i] == r[0];
      assert Receives(s, s.consumers, i, Ws(ws), m, now);
    }
  }

  predicate Capable(s: HostState, ws: nat) {
    Ws(ws) in s.capabilities && "screenshot" in s.capabilities[Ws(ws)]
  }

  /** What an attempt does, by the model's own account of its recipients. */
  lemma Attempt(s: HostState, ws: nat, m: Msg, now: nat)
    ensures var o, r := Screenshot(s, ws, m, now), Offer(s, s.consumers, Ws(ws), m, now).recipients;
      var passes := Capable(s, ws) && !TooSoon(s, ws, now) && r != [];
      && o.state == s.(lastShot := if passes then s.lastShot[ws := now] else s.lastShot, window := o.state.window)
      && o.log.shots == (if passes && m.mime != "" && m.data != "" then [Shot(ws, now)] else [])
  {
  }

  /**
   Which attempts are forwarded and which push the limit out: the first kind needs the capability, the
   passing of the limit, an admitted consumer and both mime and data; the second does without the last.
   */
  lemma StampMovesExactly(s: HostState, ws: nat, m: Msg, now: nat)
    requires Coherent(s)
    ensures var o := Screenshot(s, ws, m, now);
      var passes := Capable(s, ws) && !TooSoon(s, ws, now) && Interesting(s, ws, m, now);
      && o.state.lastShot == (if passes then s.lastShot[ws := now] else s.lastShot)
      && (o.log.shots == [Shot(ws, now)] <==> passes && m.mime != "" && m.data != "")
      && (o.log.shots == [] && now > 0 ==>
            (o.state.lastShot != s.lastShot <==> passes && (m.mime == "" || m.data == "")))
  {
    InterestingExactly(s, ws, m, now);
    Attempt(s, ws, m, now);
    if !TooSoon(s, ws, now) && now > 0 {
      assert Lookup(s.lastShot, ws) != Some(now) && Lookup(s.lastShot[ws := now], ws) == Some(now);
    }
  }

  /** A bridge that always sends mime and data is never made to wait by a refusal. */
  lemma CompleteRefusalsAreFree(s: HostState, ws: nat, m: Msg, now: nat)
    requires m.mime != "" && m.data != "" && Screenshot(s, ws, m, now).log.shots == []
    ensures Screenshot(s, ws, m, now).state == s.(window := Screenshot(s, ws, m, now).state.window)
  {
    Attempt(s, ws, m, now);
  }

  /**
   One that leaves out a field is: for two seconds after such a refusal every attempt is refused, although
   the limit alone would have let it through.
   */
  lemma IncompleteRefusalCosts(s: HostState, ws: nat, bad: Msg, now: nat, good: Msg, later: nat)
    requires Coherent(s) && IsOpen(s.conns, ws)
    requires Capable(s, ws) && !TooSoon(s, ws, now) && Interesting(s, ws, bad, now)
    requires bad.mime == "" || bad.data == ""
    requires 0 < now <= later < now + 2000
    ensures var t := Screenshot(s, ws, bad, now).state;
      var wait := now + 2000 - later;
      && Screenshot(t, ws, good, later) == Wire(t, [Sent(ws, Notice(RateLimit(wait)))])
      && !TooSoon(s, ws, later)
  {
    InterestingExactly(s, ws, bad, now);
    Attempt(s, ws, bad, now);
  }

  /** A step forwards a screenshot exactly when its log says so, completed, after the limit had passed. */
  lemma ForwardedMeansStamped(s: HostState, secret: string, ws: nat, m: Msg, now: nat)
    requires HasRole(s.conns, ws, "bridge") && m.typ == "screenshot"
    ensures var o := Step(s, secret, Input(now, Message(ws, m)));
      && ((exists x :: x in o.log.wire && x.frame.Event?) <==> o.log.shots == [Shot(ws, now)])
      && (o.log.shots != [] ==>
            o.log.shots == [Shot(ws, now)] && Lookup(o.state.lastShot, ws) == Some(now) && !TooSoon(s, ws, now))
      && (forall x :: x in o.log.wire && x.frame.Event? ==> x.frame.m == Completed(m, now))
  {
    var o := Step(s, secret, Input(now, Message(ws, m)));
    ScreenshotFrame(s, secret, ws, m, now);
    Attempt(s, ws, m, now);
    ScreenshotWire(s, ws, m, now);
    if o.log.shots != [] {
      assert o.log.wire[0] in o.log.wire;
    }
  }

  /** Forwarding fills in what is missing, keeps what is there, and has nothing left to fill the next time. */
  lemma CompletionOnlyFillsGaps(m: Msg, now: nat, later: nat)
    requires now > 0
    ensures var c := Completed(m, now);
      && c == m.(timestamp := c.timestamp, platform := c.platform, level := c.level, text := c.text)
      && (m.timestamp != 0 ==> c.timestamp == m.timestamp) && (m.platform != "" ==> c.platform == m.platform)
      && (m.level != "" ==> c.level == m.level) && (m.text != "" ==> c.text == m.text)
      && (m.timestamp == 0 ==> c.timestamp == now) && (m.platform == "" ==> c.platform == "web")
      && (m.level == "" ==> c.level == "info")
      && (m.text == "" && m.rest.route != "" ==> c.text == "Screenshot: " + m.rest.route)
      && (m.text == "" && m.rest.route == "" && m.rest.url != "" ==> c.text == "Screenshot: " + m.rest.url)
      && (m.text == "" && m.rest.route == "" && m.rest.url == "" ==> c.text == "Screenshot: unknown")
      && Completed(c, later) == c
  {
    assert |"Screenshot: "| == 12 && |"web"| == 3 && |"info"| == 4;
  }

  /** `retryAfterMs` is exact: until that moment attempts are refused, from then on they are not. */
  lemma RetryIsExact(s: HostState, ws: nat, m: Msg, now: nat, retry: nat, later: nat)
    requires Screenshot(s, ws, m, now).log.wire == [Sent(ws, Notice(RateLimit(retry)))]
    requires now <= later
    ensures TooSoon(s, ws, later) <==> later < now + retry
    ensures Screenshot(s, ws, m, now).state == s
    ensures later < now + retry ==>
              Screenshot(s, ws, m, later) == Wire(s, [Sent(ws, Notice(RateLimit(now + retry - later)))])
  {
    RefusalMeansTooSoon(s, ws, m, now, retry);
  }

  lemma RefusalMeansTooSoon(s: HostState, ws: nat, m: Msg, now: nat, retry: nat)
    requires Screenshot(s, ws, m, now).log.wire == [Sent(ws, Notice(RateLimit(retry)))]
    ensures TooSoon(s, ws, now) && retry == SCREENSHOT_RATE_LIMIT_MS - (now - s.lastShot[ws])
    ensures Ws(ws) in s.capabilities && "screenshot" in s.capabilities[Ws(ws)] && IsOpen(s.conns, ws)
  {
    var o := Screenshot(s, ws, m, now);
    assert o.log.wire[0].frame == Notice(RateLimit(retry));
  }

  /* ---------- whole runs ---------- */

  /** The forwarded screenshots so far are spaced, and the recorded moment is not before the last of them. */
  ghost predicate Throttled(s: HostState, ts: seq<nat>, ws: nat) {
    && Spaced(ts)
    && (forall i :: 0 <= i < |ts| ==> ts[i] > 0)
    && (ts != [] ==> ws < s.nextConn)
    && (ts != [] && ws in s.conns ==> ws in s.lastShot && ts[|ts| - 1] <= s.lastShot[ws])
  }

  /** Steps that are not a screenshot frame forward none and forget a recorded moment only with its socket. */
  ghost predicate KeepsStamps(s: HostState, o: Outcome) {
    && o.log.shots == []
    && s.nextConn <= o.state.nextConn
    && (forall ws :: ws in o.state.conns && ws in s.lastShot ==> Lookup(o.state.lastShot, ws) == Some(s.lastShot[ws]))
    && (forall ws :: ws in o.state.conns && ws < s.nextConn ==> ws in s.conns)
  }

  lemma SameTablesKeepStamps(s: HostState, o: Outcome)
    requires o.log.shots == [] && o.state.lastShot == s.lastShot && o.state.nextConn == s.nextConn
    requires o.state.conns.Keys == s.conns.Keys
    ensures KeepsStamps(s, o)
  {
  }

  lemma FrameKeepsStamps(s: HostState, secret: string, ws: nat, m: Msg, now: nat)
    requires ws in s.conns && !(HasRole(s.conns, ws, "bridge") && m.typ == "screenshot")
    ensures KeepsStamps(s, OnMessage(s, secret, ws, m, now))
  {
    if s.conns[ws].role.None? {
      AuthenticateChanges(s, secret, ws, m, now);
    } else if m.typ == "ping" {
    } else if s.conns[ws].role == Some("bridge") {
      BridgeFrameChanges(s, ws, m, now);
    } else if s.conns[ws].role == Some("consumer") {
      ConsumerFrameChanges(s, ws, m, now);
    }
    SameTablesKeepStamps(s, OnMessage(s, secret, ws, m, now));
  }

  lemma HttpKeepsStamps(s: HostState, secret: string, r: HttpRequest, now: nat)
    ensures KeepsStamps(s, OnHttp(s, secret, r, now))
  {
    if r.Events? && r.sid in s.sessions {
      DeliverAllQuiet(Touch(s, r.sid, now), r.sid, r.events, now);
    }
    SameTablesKeepStamps(s, OnHttp(s, secret, r, now));
  }

  lemma CloseKeepsStamps(s: HostState, ws: nat)
    requires Coherent(s) && ws in s.conns
    ensures KeepsStamps(s, OnClose(s, ws))
  {
    CloseKeepsOthers(s, ws);
  }

  lemma ClosingKeepsStamps(s: HostState, ws: nat)
    ensures KeepsStamps(s, Silent(Close(s, ws))) && KeepsStamps(s, Silent(s))
  {
    CloseChanges(s, ws);
  }

  lemma TimersKeepStamps(s: HostState, secret: string, e: Input)
    requires !e.what.Message? && !e.what.HttpCall? && !e.what.Closed?
    ensures KeepsStamps(s, Step(s, secret, e))
  {
    match e.what
    case Connection =>
    case PruneTick => SameTablesKeepStamps(s, Step(s, secret, e));
    case BadFrame(ws) => ClosingKeepsStamps(s, ws);
    case AuthTimeout(ws) => ClosingKeepsStamps(s, ws);
    case PeerClosing(ws) => ClosingKeepsStamps(s, ws);
  }

  lemma QuietShots(s: HostState, secret: string, e: Input)
    requires Coherent(s)
    requires !(e.what.Message? && HasRole(s.conns, e.what.ws, "bridge") && e.what.m.typ == "screenshot")
    ensures KeepsStamps(s, Step(s, secret, e))
  {
    match e.what
    case Message(ws, m) => if ws in s.conns { FrameKeepsStamps(s, secret, ws, m, e.now); }
    case HttpCall(r) => HttpKeepsStamps(s, secret, r, e.now);
    case Closed(ws) => if ws in s.conns { CloseKeepsStamps(s, ws); }
    case _ => TimersKeepStamps(s, secret, e);
  }

  lemma StampKeepsThrottled(s: HostState, t: HostState, src: nat, now: nat, ts: seq<nat>, ws: nat)
    requires Throttled(s, ts, ws) && src in s.conns && src < s.nextConn
    requires now > 0 && !TooSoon(s, src, now)
    requires t.conns == s.conns && t.nextConn == s.nextConn && t.lastShot == s.lastShot[src := now]
    ensures Throttled(t, ts, ws)
    ensures src == ws ==> Throttled(t, ts + [now], ws)
  {
  }

  lemma OneShot(src: nat, at: nat, ws: nat)
    ensures ShotTimes([Shot(src, at)], ws) == if src == ws then [at] else []
  {
    assert [Shot(src, at)][..0] == [];
    assert ShotTimes([Shot(src, at)], ws) == ShotTimes([], ws) + (if src == ws then [at] else []);
  }

  lemma ShotStep(s: HostState, src: nat, m: Msg, now: nat, ts: seq<nat>, ws: nat)
    requires Coherent(s) && src in s.conns && now > 0 && Throttled(s, ts, ws)
    ensures var o := Screenshot(s, src, m, now); Throttled(o.state, ts + ShotTimes(o.log.shots, ws), ws)
  {
    var o := Screenshot(s, src, m, now);
    ShotOutcomes(s, src, m, now);
    assert ts + [] == ts;
    if o.log.shots == [Shot(src, now)] {
      OneShot(src, now, ws);
      StampKeepsThrottled(s, o.state, src, now, ts, ws);
    } else if o.state.lastShot != s.lastShot {
      StampKeepsThrottled(s, o.state, src, now, ts, ws);
    }
  }

  /** An attempt either leaves the recorded moments alone, or records this one after the limit has passed. */
  lemma ShotOutcomes(s: HostState, src: nat, m: Msg, now: nat)
    ensures var o := Screenshot(s, src, m, now);
      && o.state.conns == s.conns && o.state.nextConn == s.nextConn
      && ((o.state.lastShot == s.lastShot && o.log.shots == [])
          || (o.state.lastShot == s.lastShot[src := now] && !TooSoon(s, src, now)
              && o.log.shots in {[], [Shot(src, now)]}))
  {
    Attempt(s, src, m, now);
  }

  lemma {:induction false} RunThrottled(s: HostState, secret: string, es: seq<Input>, ws: nat)
    requires Coherent(s) && forall i :: 0 <= i < |es| ==> es[i].now > 0
    ensures var o := Run(s, secret, es); Throttled(o.state, ShotTimes(o.log.shots, ws), ws)
  {
    if es != [] {
      var n := |es| - 1;
      var before := Run(s, secret, es[..n]);
      var e, ts := es[n], ShotTimes(before.log.shots, ws);
      RunThrottled(s, secret, es[..n], ws);
      RunCoherent(s, secret, es[..n]);
      ShotTimesConcat(before.log.shots, Step(before.state, secret, e).log.shots, ws);
      if e.what.Message? && HasRole(before.state.conns, e.what.ws, "bridge") && e.what.m.typ == "screenshot" {
        ScreenshotFrame(before.state, secret, e.what.ws, e.what.m, e.now);
        ShotStep(before.state, e.what.ws, e.what.m, e.now, ts, ws);
      } else {
        QuietShots(before.state, secret, e);
        assert ts + ShotTimes([], ws) == ts;
      }
    }
  }

  /** Over every run and for every WebSocket bridge: at most L / 2000 + 1 screenshots in any L ms. */
  lemma {:induction false} ScreenshotRateBound(start: nat, secret: string, es: seq<Input>, ws: nat, lo: nat, hi: nat)
    requires start > 0 && InOrder(start, es) && lo <= hi
    ensures var ts := ShotTimes(Run(Initial(start), secret, es).log.shots, ws);
      Spaced(ts) && Count(ts, t => lo <= t <= hi) <= (hi - lo) / 2000 + 1
  {
    InitialCoherent(start);
    RunThrottled(Initial(start), secret, es, ws);
    SpacedIsRare(ShotTimes(Run(Initial(start), secret, es).log.shots, ws), lo, hi);
  }

  /** The limit does not cover HTTP bridges: the same session may post two screenshots in one millisecond. */
  lemma HttpScreenshotsAreNotLimited(s: HostState, secret: string, sid: nat, m: Msg, now: nat)
    requires Coherent(s) && sid in s.sessions && m.typ == "screenshot"
    ensures var e := Input(now, HttpCall(Events(sid, [m])));
      var o := Step(s, secret, e);
      var d := Defaulted(m, now);
      && o.state.lastShot == s.lastShot && o.log.shots == []
      && o.log.wire == SendAll(Offer(Touch(s, sid, now), s.consumers, Http(sid), d, now).recipients, Event(d))
  {
    assert [m][..0] == [];
    assert DeliverAll(Touch(s, sid, now), sid, [m][..0], now) == Silent(Touch(s, sid, now));
  }
}
