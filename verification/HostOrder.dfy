/** When the order in which consumers are visited decides who receives an event. */
module HostOrder {
  import opened Common
  import opened Routing
  import opened HostModel
  import opened HostCoherence
  import opened HostFanOut

  /* ---------- iteration order ---------- */

  function JudgedAmong(s: HostState, cs: seq<nat>): set<nat> {
    set c | c in cs && Judged(s, c)
  }

  lemma {:induction false} TurnIsCardinality(s: HostState, cs: seq<nat>)
    requires NoDup(cs)
    ensures Turn(s, cs, |cs|) == |JudgedAmong(s, cs)|
  {
    if cs != [] {
      var n := |cs| - 1;
      var c := cs[n];
      TurnIsCardinality(s, cs[..n]);
      TurnPrefix(s, cs, n, n);
      assert c !in cs[..n];
      JudgedAmongSnoc(s, cs[..n], c);
      assert cs == cs[..n] + [c];
    }
  }

  lemma JudgedAmongSnoc(s: HostState, cs: seq<nat>, c: nat)
    requires c !in cs
    ensures |JudgedAmong(s, cs + [c])| == |JudgedAmong(s, cs)| + (if Judged(s, c) then 1 else 0)
  {
    var before := JudgedAmong(s, cs);
    if Judged(s, c) {
      assert JudgedAmong(s, cs + [c]) == before + {c};
    } else {
      assert JudgedAmong(s, cs + [c]) == before;
    }
  }

  lemma {:induction false} TurnMonotone(s: HostState, cs: seq<nat>, i: nat, j: nat)
    requires i <= j <= |cs|
    ensures Turn(s, cs, i) <= Turn(s, cs, j)
    decreases j
  {
    if i < j {
      TurnMonotone(s, cs, i, j - 1);
    }
  }

  /** A verdict depends on the evaluation's number only by whether it is above the limit. */
  lemma VerdictByCrowding(s: HostState, c: nat, from: Peer, m: Msg, count: nat)
    ensures ReceivesAs(s, c, from, m, count) ==
            ReceivesAs(s, c, from, m, if Judged(s, c) && count > WINDOW_LIMIT then WINDOW_LIMIT + 1 else 0)
  {
  }

  /** Consumers that an uncrowded window lets receive the message and a crowded one does not. */
  predicate Sensitive(s: HostState, c: nat, from: Peer, m: Msg) {
    Judged(s, c) && ReceivesAs(s, c, from, m, 0) && !ReceivesAs(s, c, from, m, WINDOW_LIMIT + 1)
  }

  lemma InsensitiveVerdict(s: HostState, c: nat, from: Peer, m: Msg)
    requires !Sensitive(s, c, from, m)
    ensures ReceivesAs(s, c, from, m, WINDOW_LIMIT + 1) == ReceivesAs(s, c, from, m, 0)
  {
    assert Lower("error") == "error";
    assert "error"[0] == 'e' && "debug"[0] == 'd' && "log"[0] == 'l' && "info"[0] == 'i';
  }

  /** The window crosses its limit during the fan-out, and somebody minds. */
  ghost predicate Crossing(s: HostState, cs: seq<nat>, from: Peer, m: Msg, now: nat) {
    var count := Current(s.window, now).count;
    && count < WINDOW_LIMIT < count + |JudgedAmong(s, cs)|
    && exists c :: c in cs && Sensitive(s, c, from, m)
  }

  ghost predicate Reordered(cs: seq<nat>, ds: seq<nat>) {
    NoDup(ds) && forall c :: c in cs <==> c in ds
  }

  /** Visiting the consumers in another order changes who receives the message. */
  ghost predicate OrderMatters(s: HostState, cs: seq<nat>, ds: seq<nat>, from: Peer, m: Msg, now: nat) {
    Reordered(cs, ds) &&
    exists c :: (c in Offer(s, cs, from, m, now).recipients) != (c in Offer(s, ds, from, m, now).recipients)
  }

  function FixedNumber(s: HostState, now: nat): nat {
    if Current(s.window, now).count < WINDOW_LIMIT then 0 else WINDOW_LIMIT + 1
  }

  /** If the window does not cross its limit, or nobody minds, every verdict is the one at a fixed number. */
  lemma FixedVerdict(s: HostState, cs: seq<nat>, i: nat, from: Peer, m: Msg, now: nat)
    requires NoDup(cs) && i < |cs| && !Crossing(s, cs, from, m, now)
    ensures Receives(s, cs, i, from, m, now) == ReceivesAs(s, cs[i], from, m, FixedNumber(s, now))
  {
    var count, turn := Current(s.window, now).count, Turn(s, cs, i + 1);
    if Judged(s, cs[i]) && Sensitive(s, cs[i], from, m) {
      TurnBounds(s, cs, i);
      NoCrossingFor(s, cs, cs[i], from, m, now);
      SameSide(count, turn, |JudgedAmong(s, cs)|);
    }
    NumberHardlyMatters(s, cs[i], from, m, count + turn, FixedNumber(s, now));
  }

  lemma TurnBounds(s: HostState, cs: seq<nat>, i: nat)
    requires NoDup(cs) && i < |cs| && Judged(s, cs[i])
    ensures 1 <= Turn(s, cs, i + 1) <= |JudgedAmong(s, cs)|
  {
    TurnMonotone(s, cs, i + 1, |cs|);
    TurnIsCardinality(s, cs);
  }

  /** With a sensitive consumer about, the window is over its limit from the start or not even at the end. */
  lemma NoCrossingFor(s: HostState, cs: seq<nat>, c: nat, from: Peer, m: Msg, now: nat)
    requires !Crossing(s, cs, from, m, now) && c in cs && Sensitive(s, c, from, m)
    ensures var count := Current(s.window, now).count;
      count >= WINDOW_LIMIT || count + |JudgedAmong(s, cs)| <= WINDOW_LIMIT
  {
  }

  lemma SameSide(count: nat, turn: nat, all: nat)
    requires 1 <= turn <= all && (count >= WINDOW_LIMIT || count + all <= WINDOW_LIMIT)
    ensures count + turn > WINDOW_LIMIT <==> count >= WINDOW_LIMIT
  {
  }

  /** Two numbers on the same side of the limit, or none that the consumer minds, give the same verdict. */
  lemma NumberHardlyMatters(s: HostState, c: nat, from: Peer, m: Msg, a: nat, b: nat)
    requires Judged(s, c) && ((a > WINDOW_LIMIT) != (b > WINDOW_LIMIT)) ==> !Sensitive(s, c, from, m)
    ensures ReceivesAs(s, c, from, m, a) == ReceivesAs(s, c, from, m, b)
  {
    VerdictByCrowding(s, c, from, m, a);
    VerdictByCrowding(s, c, from, m, b);
    if !Sensitive(s, c, from, m) {
      InsensitiveVerdict(s, c, from, m);
    }
  }

  lemma FixedRecipients(s: HostState, cs: seq<nat>, from: Peer, m: Msg, now: nat, c: nat)
    requires NoDup(cs) && !Crossing(s, cs, from, m, now)
    ensures c in Offer(s, cs, from, m, now).recipients <==> c in cs && ReceivesAs(s, c, from, m, FixedNumber(s, now))
  {
    var r := Offer(s, cs, from, m, now).recipients;
    if c in cs {
      var i :| 0 <= i < |cs| && cs[i] == c;
      FanOutDecides(s, cs, i, from, m, now);
      FixedVerdict(s, cs, i, from, m, now);
    } else {
      FanOutInOrder(s, cs, from, m, now);
      SubsequenceMembers(r, cs);
    }
  }

  lemma SameCrossing(s: HostState, cs: seq<nat>, ds: seq<nat>, from: Peer, m: Msg, now: nat)
    requires forall c :: c in cs <==> c in ds
    ensures Crossing(s, cs, from, m, now) == Crossing(s, ds, from, m, now)
  {
    SameJudged(s, cs, ds);
  }

  /** First in line, a sensitive consumer receives the message. */
  lemma FirstReceives(s: HostState, c: nat, others: seq<nat>, from: Peer, m: Msg, now: nat)
    requires NoDup([c] + others) && Sensitive(s, c, from, m) && Current(s.window, now).count < WINDOW_LIMIT
    ensures c in Offer(s, [c] + others, from, m, now).recipients
  {
    var front, number := [c] + others, Current(s.window, now).count + 1;
    FanOutDecides(s, front, 0, from, m, now);
    assert Turn(s, front, 1) == Turn(s, front, 0) + 1 == 1;
    assert Current(s.window, now).count + Turn(s, front, 1) == number;
    VerdictByCrowding(s, c, from, m, number);
  }

  /** Last in line, it does not, if the others use up the window. */
  lemma LastMisses(s: HostState, c: nat, others: seq<nat>, from: Peer, m: Msg, now: nat)
    requires NoDup(others + [c]) && Sensitive(s, c, from, m)
    requires WINDOW_LIMIT < Current(s.window, now).count + |JudgedAmong(s, others + [c])|
    ensures c !in Offer(s, others + [c], from, m, now).recipients
  {
    var back := others + [c];
    var number := Current(s.window, now).count + |JudgedAmong(s, back)|;
    FanOutDecides(s, back, |others|, from, m, now);
    TurnIsCardinality(s, back);
    assert Current(s.window, now).count + Turn(s, back, |others| + 1) == number;
    VerdictByCrowding(s, c, from, m, number);
  }

  lemma MovedToAnEnd(cs: seq<nat>, c: nat)
    requires NoDup(cs) && c in cs
    ensures Reordered(cs, [c] + Remove(cs, c)) && Reordered(cs, Remove(cs, c) + [c])
  {
    var others := Remove(cs, c);
    RemoveProps(cs, c);
    NoDupOfConcat([c], others);
    NoDupOfConcat(others, [c]);
  }

  lemma SameJudged(s: HostState, cs: seq<nat>, ds: seq<nat>)
    requires forall c :: c in cs <==> c in ds
    ensures JudgedAmong(s, cs) == JudgedAmong(s, ds)
  {
  }

  lemma CrossingMatters(s: HostState, cs: seq<nat>, from: Peer, m: Msg, now: nat) returns (ds: seq<nat>)
    requires NoDup(cs) && Crossing(s, cs, from, m, now)
    ensures OrderMatters(s, cs, ds, from, m, now)
  {
    var c :| c in cs && Sensitive(s, c, from, m);
    var others := Remove(cs, c);
    MovedToAnEnd(cs, c);
    SameJudged(s, cs, others + [c]);
    FirstReceives(s, c, others, from, m, now);
    LastMisses(s, c, others, from, m, now);
    if c in Offer(s, cs, from, m, now).recipients {
      ds := others + [c];
      Differs(s, cs, ds, from, m, now, c);
    } else {
      ds := [c] + others;
      Differs(s, cs, ds, from, m, now, c);
    }
  }

  lemma Differs(s: HostState, cs: seq<nat>, ds: seq<nat>, from: Peer, m: Msg, now: nat, c: nat)
    requires Reordered(cs, ds)
    requires (c in Offer(s, cs, from, m, now).recipients) != (c in Offer(s, ds, from, m, now).recipients)
    ensures OrderMatters(s, cs, ds, from, m, now)
  {
  }

  /**
   Exactly when iteration order decides who receives a message: the window is below its limit before the
   fan-out and would be above it afterwards, and some consumer is admitted only below the limit.
   */
  lemma OrderMattersExactly(s: HostState, cs: seq<nat>, from: Peer, m: Msg, now: nat)
    requires NoDup(cs)
    ensures (exists ds :: OrderMatters(s, cs, ds, from, m, now)) <==> Crossing(s, cs, from, m, now)
  {
    if Crossing(s, cs, from, m, now) {
      var ds := CrossingMatters(s, cs, from, m, now);
    } else {
      forall ds | Reordered(cs, ds)
        ensures !OrderMatters(s, cs, ds, from, m, now)
      {
        OrderIsIrrelevant(s, cs, ds, from, m, now);
      }
    }
  }

  /** In particular the recipients are the same for every order unless the window crosses its limit on the way. */
  lemma OrderIsIrrelevant(s: HostState, cs: seq<nat>, ds: seq<nat>, from: Peer, m: Msg, now: nat)
    requires NoDup(cs) && Reordered(cs, ds) && !Crossing(s, cs, from, m, now)
    ensures forall c :: c in Offer(s, cs, from, m, now).recipients <==> c in Offer(s, ds, from, m, now).recipients
  {
    SameCrossing(s, cs, ds, from, m, now);
    forall c
      ensures c in Offer(s, cs, from, m, now).recipients <==> c in Offer(s, ds, from, m, now).recipients
    {
      FixedRecipients(s, cs, from, m, now, c);
      FixedRecipients(s, ds, from, m, now, c);
    }
  }

  /** For instance: of two consumers with equal subscriptions and one place left, the first one wins. */
  lemma OrderMattersAtTheLimit(s: HostState, a: nat, b: nat, m: Msg, from: Peer)
    requires a != b && IsOpen(s.conns, a) && IsOpen(s.conns, b)
    requires Lookup(s.subscriptions, a) == Lookup(s.subscriptions, b) == Some(Subscription(["trace"], [], Minimal))
    requires s.window == Window(0, 499) && m.level == "warn" && m.typ == "log"
    ensures Offer(s, [a, b], from, m, 0).recipients == [a]
    ensures Offer(s, [b, a], from, m, 0).recipients == [b]
  {
    TraceTakesWarnings(Lookup(s.capabilities, from));
    OnlyTheFirst(s, a, b, m, from);
    OnlyTheFirst(s, b, a, m, from);
  }

  lemma OnlyTheFirst(s: HostState, x: nat, y: nat, m: Msg, from: Peer)
    requires x != y && IsOpen(s.conns, x) && IsOpen(s.conns, y) && x in s.subscriptions && y in s.subscriptions
    requires s.window == Window(0, 499)
    requires Admits(Some(s.subscriptions[x]), m.typ, m.level, Lookup(s.capabilities, from), 500)
    requires !Admits(Some(s.subscriptions[y]), m.typ, m.level, Lookup(s.capabilities, from), 501)
    ensures Offer(s, [x, y], from, m, 0).recipients == [x]
  {
    assert [x, y][..1] == [x] && [x][..0] == [];
    assert Offer(s, [], from, m, 0).recipients == [];
    assert Turn(s, [x], 1) == 1 && Turn(s, [x, y], 2) == 2 by { TurnPrefix(s, [x, y], 1, 1); }
    LastReceives(s, [x], from, m, 0);
    LastReceives(s, [x, y], from, m, 0);
  }

  lemma TraceTakesWarnings(caps: Option<seq<string>>)
    ensures var sub := Some(Subscription(["trace"], [], Minimal));
      Admits(sub, "log", "warn", caps, 500) && !Admits(sub, "log", "warn", caps, 501)
  {
    UntypedIsNotGated();
    assert "warn"[0] == 'w' && "debug"[0] == 'd' && "log"[0] == 'l' && "error"[0] == 'e';
    assert Lower("warn") == "warn";
    assert LevelRank("trace") == 3 by {
      assert Lower("trace") == "trace" && LEVEL_ORDER[3] == "trace" && "trace"[0] == 't';
      assert LEVEL_ORDER[0][0] == 'e' && LEVEL_ORDER[1][0] == 'w' && LEVEL_ORDER[2][0] == 'i';
    }
    assert "trace" in ["trace"];
    assert IncludesLevel(Some(["trace"]), "warn");
  }
}
