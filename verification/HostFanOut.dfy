/** Who receives an event: the fan-out loop against a declarative routing rule. */
module HostFanOut {
  import opened Common
  import opened Routing
  import opened HostModel
  import opened HostCoherence

  /* ---------- the declarative routing rule ---------- */

  /** Consumers whose filter is evaluated: connected, open and subscribed. */
  predicate Judged(s: HostState, c: nat) {
    IsOpen(s.conns, c) && c in s.subscriptions
  }

  /** How many of the first `n` consumers have their filter evaluated. */
  function Turn(s: HostState, cs: seq<nat>, n: nat): (k: nat)
    requires n <= |cs|
    ensures k <= n
  {
    if n == 0 then 0 else Turn(s, cs, n - 1) + (if Judged(s, cs[n - 1]) then 1 else 0)
  }

  /**
   Consumer number `i` receives the message iff it is open and the rules admit it, its filter being
   evaluation number "what the window held, plus its turn".
   */
  predicate Receives(s: HostState, cs: seq<nat>, i: nat, from: Peer, m: Msg, now: nat)
    requires i < |cs|
  {
    ReceivesAs(s, cs[i], from, m, Current(s.window, now).count + Turn(s, cs, i + 1))
  }

  predicate ReceivesAs(s: HostState, c: nat, from: Peer, m: Msg, count: nat) {
    IsOpen(s.conns, c) && Admits(Lookup(s.subscriptions, c), m.typ, m.level, Lookup(s.capabilities, from), count)
  }

  /** A subscribe frame replaces its sender's subscription, with the documented defaults, and nobody else's. */
  lemma SubscribeGovernsRouting(s: HostState, secret: string, ws: nat, m: Msg, now: nat,
                                c: nat, from: Peer, ev: Msg, count: nat)
    requires HasRole(s.conns, ws, "consumer") && m.typ == "subscribe"
    ensures var t := Step(s, secret, Input(now, Message(ws, m))).state;
      var levels := if m.rest.levels == None then ["errors"] else m.rest.levels.value;
      var filter := if Lower(m.rest.llmFilter) == "aggressive" then Aggressive
                    else if Lower(m.rest.llmFilter) == "minimal" then Minimal else Off;
      ReceivesAs(t, c, from, ev, count) <==>
        if c == ws then
          && IsOpen(s.conns, ws)
          && Admits(Some(Subscription(levels, m.rest.capabilities, filter)), ev.typ, ev.level,
                    Lookup(s.capabilities, from), count)
        else ReceivesAs(s, c, from, ev, count)
  {
    assert "bridge"[0] != "consumer"[0] && "subscribe"[0] == 's' && "ping"[0] == 'p';
    assert "minimal"[0] == 'm' && "aggressive"[0] == 'a';
    ConsumerFrameChanges(s, ws, m, now);
    assert Step(s, secret, Input(now, Message(ws, m))) == ConsumerFrame(s, ws, m, now);
  }

  lemma {:induction false} TurnPrefix(s: HostState, cs: seq<nat>, n: nat, k: nat)
    requires k <= n <= |cs|
    ensures Turn(s, cs[..n], k) == Turn(s, cs, k)
    decreases k
  {
    if k != 0 {
      TurnPrefix(s, cs, n, k - 1);
    }
  }

  /** The window after a fan-out has counted one evaluation per judged consumer, all in one window. */
  lemma {:induction false} OfferWindow(s: HostState, cs: seq<nat>, from: Peer, m: Msg, now: nat)
    ensures var f, k, c := Offer(s, cs, from, m, now), Turn(s, cs, |cs|), Current(s.window, now);
      && |f.judged| == k
      && f.window == (if k == 0 then s.window else c.(count := c.count + k))
      && (forall j :: 0 <= j < k ==> f.judged[j].window == c.(count := c.count + j + 1) && f.judged[j].now == now)
  {
    if cs != [] {
      var n := |cs| - 1;
      OfferWindow(s, cs[..n], from, m, now);
      TurnPrefix(s, cs, n, n);
    }
  }

  /** One turn of the loop applies the rule to one consumer. */
  lemma OfferOneIsRule(s: HostState, c: nat, from: Peer, m: Msg, now: nat, f: FanOut)
    ensures var count := Current(f.window, now).count + (if Judged(s, c) then 1 else 0);
      OfferOne(s, c, from, m, now, f).recipients ==
      f.recipients + (if ReceivesAs(s, c, from, m, count) then [c] else [])
  {
  }

  /** What the loop adds for its last consumer is what the rule says about it. */
  lemma LastReceives(s: HostState, cs: seq<nat>, from: Peer, m: Msg, now: nat)
    requires cs != []
    ensures var n := |cs| - 1;
      Offer(s, cs, from, m, now).recipients ==
      Offer(s, cs[..n], from, m, now).recipients + (if Receives(s, cs, n, from, m, now) then [cs[n]] else [])
  {
    var n := |cs| - 1;
    var before := Offer(s, cs[..n], from, m, now);
    OfferWindow(s, cs[..n], from, m, now);
    TurnPrefix(s, cs, n, n);
    assert Turn(s, cs, n + 1) == Turn(s, cs, n) + (if Judged(s, cs[n]) then 1 else 0);
    assert Current(before.window, now).count == Current(s.window, now).count + Turn(s, cs, n);
    OfferOneIsRule(s, cs[n], from, m, now, before);
  }

  lemma ReceivesPrefix(s: HostState, cs: seq<nat>, n: nat, i: nat, from: Peer, m: Msg, now: nat)
    requires i < n <= |cs|
    ensures Receives(s, cs[..n], i, from, m, now) == Receives(s, cs, i, from, m, now)
  {
    TurnPrefix(s, cs, n, i + 1);
    var c, k := cs[i], Current(s.window, now).count + Turn(s, cs, i + 1);
    assert cs[..n][i] == c && Current(s.window, now).count + Turn(s, cs[..n], i + 1) == k;
    var verdict := ReceivesAs(s, c, from, m, k);
    assert Receives(s, cs[..n], i, from, m, now) == verdict;
    assert Receives(s, cs, i, from, m, now) == verdict;
  }

  lemma {:induction false} FanOutInOrder(s: HostState, cs: seq<nat>, from: Peer, m: Msg, now: nat)
    ensures Subsequence(Offer(s, cs, from, m, now).recipients, cs)
  {
    if cs != [] {
      var n := |cs| - 1;
      var before := Offer(s, cs[..n], from, m, now).recipients;
      FanOutInOrder(s, cs[..n], from, m, now);
      LastReceives(s, cs, from, m, now);
      SubsequenceRefl([cs[n]]);
      SubsequenceEmpty([cs[n]]);
      SubsequenceConcat(before, cs[..n], if Receives(s, cs, n, from, m, now) then [cs[n]] else [], [cs[n]]);
      assert cs == cs[..n] + [cs[n]];
    }
  }

  lemma MemberOfAppended<T>(xs: seq<T>, y: T, added: bool, x: T)
    ensures x in xs + (if added then [y] else []) <==> x in xs || (added && x == y)
  {
  }

  lemma LastDecides(s: HostState, cs: seq<nat>, from: Peer, m: Msg, now: nat)
    requires NoDup(cs) && cs != []
    ensures cs[|cs| - 1] in Offer(s, cs, from, m, now).recipients <==> Receives(s, cs, |cs| - 1, from, m, now)
  {
    var n := |cs| - 1;
    var before := Offer(s, cs[..n], from, m, now).recipients;
    LastReceives(s, cs, from, m, now);
    MemberOfAppended(before, cs[n], Receives(s, cs, n, from, m, now), cs[n]);
    assert cs[n] !in before by {
      FanOutInOrder(s, cs[..n], from, m, now);
      SubsequenceMembers(before, cs[..n]);
      assert cs[n] !in cs[..n];
    }
  }

  lemma EarlierDecided(s: HostState, cs: seq<nat>, i: nat, from: Peer, m: Msg, now: nat)
    requires NoDup(cs) && i < |cs| - 1
    ensures cs[i] in Offer(s, cs, from, m, now).recipients <==>
              cs[i] in Offer(s, cs[..|cs| - 1], from, m, now).recipients
  {
    var n := |cs| - 1;
    LastReceives(s, cs, from, m, now);
    MemberOfAppended(Offer(s, cs[..n], from, m, now).recipients, cs[n], Receives(s, cs, n, from, m, now), cs[i]);
  }

  lemma {:induction false} FanOutDecides(s: HostState, cs: seq<nat>, i: nat, from: Peer, m: Msg, now: nat)
    requires NoDup(cs) && i < |cs|
    ensures cs[i] in Offer(s, cs, from, m, now).recipients <==> Receives(s, cs, i, from, m, now)
    decreases |cs|
  {
    var n := |cs| - 1;
    if i < n {
      EarlierDecided(s, cs, i, from, m, now);
      FanOutDecides(s, cs[..n], i, from, m, now);
      ReceivesPrefix(s, cs, n, i, from, m, now);
    } else {
      LastDecides(s, cs, from, m, now);
    }
  }

  /** The fan-out loop sends to exactly the consumers the rule admits, each at most once, in table order. */
  lemma FanOutIsRouting(s: HostState, cs: seq<nat>, from: Peer, m: Msg, now: nat)
    requires NoDup(cs)
    ensures var r := Offer(s, cs, from, m, now).recipients;
      && NoDup(r) && Subsequence(r, cs)
      && (forall i :: 0 <= i < |cs| ==> (cs[i] in r <==> Receives(s, cs, i, from, m, now)))
  {
    FanOutInOrder(s, cs, from, m, now);
    SubsequenceNoDup(Offer(s, cs, from, m, now).recipients, cs);
    forall i | 0 <= i < |cs|
      ensures cs[i] in Offer(s, cs, from, m, now).recipients <==> Receives(s, cs, i, from, m, now)
    {
      FanOutDecides(s, cs, i, from, m, now);
    }
  }

  lemma {:induction false} SubsequenceNoDup<T>(xs: seq<T>, ys: seq<T>)
    requires Subsequence(xs, ys) && NoDup(ys)
    ensures NoDup(xs)
    decreases |ys|
  {
    if ys != [] {
      var n := |ys| - 1;
      if Subsequence(xs, ys[..n]) {
        SubsequenceNoDup(xs, ys[..n]);
      } else {
        SubsequenceNoDup(xs[..|xs| - 1], ys[..n]);
        SubsequenceMembers(xs[..|xs| - 1], ys[..n]);
        assert ys[n] !in ys[..n];
        NoDupSnoc(xs[..|xs| - 1], ys[n]);
        assert xs == xs[..|xs| - 1] + [ys[n]];
      }
    }
  }

  lemma {:induction false} SubsequenceMembers<T>(xs: seq<T>, ys: seq<T>)
    requires Subsequence(xs, ys)
    ensures forall x :: x in xs ==> x in ys
    decreases |ys|
  {
    if ys != [] {
      var n := |ys| - 1;
      if Subsequence(xs, ys[..n]) {
        SubsequenceMembers(xs, ys[..n]);
      } else {
        SubsequenceMembers(xs[..|xs| - 1], ys[..n]);
        assert xs == xs[..|xs| - 1] + [xs[|xs| - 1]];
      }
    }
  }

  /** Passing a request on sends nothing but the request. */
  lemma {:induction false} RequestFramesNoEvents(ts: seq<Peer>, m: Msg)
    ensures forall x :: x in RequestFrames(ts, m) ==> x.frame == Frame.Request(m)
  {
    if ts != [] {
      RequestFramesNoEvents(ts[..|ts| - 1], m);
    }
  }
}
