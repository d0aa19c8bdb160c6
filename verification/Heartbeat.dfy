/** Heartbeats: when a client gives its peer up. */
module Heartbeat {
  import opened Common

  /* ---------- the polling loop: check, ping when due, give up when overdue, receive ---------- */

  datatype Config = Config(intervalMs: nat, timeoutMs: nat)

  datatype Incoming = Pong | OtherMessage | Nothing

  /** One turn of the loop: the clock at its top, what was received, and the clock when it was handled. */
  datatype Turn = Turn(now: nat, received: Incoming, at: nat)

  datatype Loop = Loop(nextPing: nat, pongDeadline: nat, pings: seq<nat>, abandoned: Option<nat>)

  function Start(c: Config, now: nat): Loop {
    Loop(now + c.intervalMs, now + c.timeoutMs, [], None)
  }

  function Step(c: Config, l: Loop, t: Turn): Loop {
    if l.abandoned.Some? then l
    else
      var pinged := if t.now >= l.nextPing then l.(pings := l.pings + [t.now], nextPing := t.now + c.intervalMs) else l;
      if t.now >= l.pongDeadline then pinged.(abandoned := Some(t.now))
      else if t.received.Pong? then pinged.(pongDeadline := t.at + c.timeoutMs)
      else pinged
  }

  function Run(c: Config, start: nat, ts: seq<Turn>): Loop {
    if ts == [] then Start(c, start) else Step(c, Run(c, start, ts[..|ts| - 1]), ts[|ts| - 1])
  }

  /** The loop itself: its local variables and its exits. */
  method RunLoop(c: Config, start: nat, ts: seq<Turn>) returns (abandoned: Option<nat>, pings: seq<nat>)
    ensures abandoned == Run(c, start, ts).abandoned
    ensures pings == Run(c, start, ts).pings
  {
    var nextPing: nat := start + c.intervalMs;
    var pongDeadline: nat := start + c.timeoutMs;
    pings := [];
    var i := 0;
    assert ts[..0] == [];
    while i < |ts|
      invariant 0 <= i <= |ts|
      invariant Run(c, start, ts[..i]) == Loop(nextPing, pongDeadline, pings, None)
    {
      assert ts[..i + 1][..i] == ts[..i];
      var t := ts[i];
      if t.now >= nextPing {
        pings := pings + [t.now];
        nextPing := t.now + c.intervalMs;
      }
      if t.now >= pongDeadline {
        AbandonedForGood(c, start, ts, i + 1);
        return Some(t.now), pings;
      }
      if t.received.Pong? {
        pongDeadline := t.at + c.timeoutMs;
      }
      i := i + 1;
    }
    assert ts[..i] == ts;
    abandoned := None;
  }

  lemma {:induction false} AbandonedForGood(c: Config, start: nat, ts: seq<Turn>, n: nat)
    requires n <= |ts| && Run(c, start, ts[..n]).abandoned.Some?
    ensures Run(c, start, ts) == Run(c, start, ts[..n])
    decreases |ts|
  {
    if n == |ts| {
      assert ts[..n] == ts;
    } else {
      assert ts[..|ts| - 1][..n] == ts[..n];
      AbandonedForGood(c, start, ts[..|ts| - 1], n);
    }
  }

  /** The clock runs forward and no turn is longer than `delta`. */
  ghost predicate Paced(start: nat, ts: seq<Turn>, delta: nat) {
    && (forall i :: 0 <= i < |ts| ==> ts[i].now <= ts[i].at)
    && (ts != [] ==> start <= ts[0].now <= start + delta)
    && (forall i :: 0 < i < |ts| ==> ts[i - 1].at <= ts[i].now <= ts[i - 1].now + delta)
  }

  lemma PacedPrefix(start: nat, ts: seq<Turn>, delta: nat, n: nat)
    requires Paced(start, ts, delta) && n <= |ts|
    ensures Paced(start, ts[..n], delta)
  {
  }

  /** When the last pong was handled; the start of the loop counts as one. */
  function LastPong(start: nat, ts: seq<Turn>): nat {
    if ts == [] then start
    else if ts[|ts| - 1].received.Pong? then ts[|ts| - 1].at
    else LastPong(start, ts[..|ts| - 1])
  }

  /** Only a pong moves the deadline: it is always the last pong plus the timeout. */
  lemma {:induction false} DeadlineIsLastPong(c: Config, start: nat, ts: seq<Turn>)
    requires Run(c, start, ts).abandoned.None?
    ensures Run(c, start, ts).pongDeadline == LastPong(start, ts) + c.timeoutMs
  {
    if ts != [] {
      DeadlineIsLastPong(c, start, ts[..|ts| - 1]);
    }
  }

  /** The peer is abandoned at a check exactly when the last pong is a full timeout old. */
  lemma AbandonedExactlyWhenSilent(c: Config, start: nat, ts: seq<Turn>, t: Turn)
    requires Run(c, start, ts).abandoned.None?
    ensures Run(c, start, ts + [t]).abandoned ==
            if t.now >= LastPong(start, ts) + c.timeoutMs then Some(t.now) else None
  {
    DeadlineIsLastPong(c, start, ts);
    assert (ts + [t])[..|ts + [t]| - 1] == ts;
  }

  lemma {:induction false} LastPongSilent(start: nat, ts: seq<Turn>, k: nat)
    requires k <= |ts| && forall i :: k <= i < |ts| ==> !ts[i].received.Pong?
    ensures LastPong(start, ts) == LastPong(start, ts[..k])
    decreases |ts|
  {
    if k == |ts| {
      assert ts[..k] == ts;
    } else {
      assert ts[..|ts| - 1][..k] == ts[..k];
      LastPongSilent(start, ts[..|ts| - 1], k);
    }
  }

  /** The last pong of a prefix that reaches past turn `k` is the one before `k`; of a shorter one, no later. */
  lemma LastPongBefore(start: nat, ts: seq<Turn>, j: nat, k: nat, delta: nat)
    requires Paced(start, ts, delta) && j <= |ts| && k <= |ts|
    requires forall i :: k <= i < |ts| ==> !ts[i].received.Pong?
    ensures LastPong(start, ts[..j]) <= LastPong(start, ts[..k])
  {
    if k <= j {
      LastPongSilent(start, ts[..j], k);
      assert ts[..j][..k] == ts[..k];
    } else {
      LastPongGrows(start, ts, j, k, delta);
    }
  }

  lemma DueCheckAbandons(c: Config, start: nat, ts: seq<Turn>, j: nat)
    requires j < |ts| && Run(c, start, ts[..j]).abandoned.None?
    requires ts[j].now >= LastPong(start, ts[..j]) + c.timeoutMs
    ensures Run(c, start, ts[..j + 1]).abandoned == Some(ts[j].now)
  {
    assert ts[..j + 1] == ts[..j] + [ts[j]];
    AbandonedExactlyWhenSilent(c, start, ts[..j], ts[j]);
  }

  lemma AbandonedBeforeDue(c: Config, start: nat, ts: seq<Turn>, j: nat, due: nat)
    requires j <= |ts| && Run(c, start, ts[..j]).abandoned.Some?
    requires forall i :: 0 <= i < j ==> ts[i].now < due
    ensures Run(c, start, ts[..j]).abandoned.value < due
  {
    AbandonedAtSomeCheck(c, start, ts[..j]);
    var a :| 0 <= a < j && Run(c, start, ts[..j]).abandoned == Some(ts[..j][a].now);
    assert ts[..j][a] == ts[a];
  }

  /**
   Silence: if nothing but other messages arrive from turn `k` on and the loop is still checking `delta`
   after the timeout, then it has given up, no later than the last pong plus timeout plus one turn.
   */
  lemma {:induction false} SilentPeerIsAbandoned(c: Config, start: nat, ts: seq<Turn>, k: nat, delta: nat)
    requires Paced(start, ts, delta) && k <= |ts|
    requires forall i :: k <= i < |ts| ==> !ts[i].received.Pong?
    requires ts != [] && ts[|ts| - 1].now >= LastPong(start, ts[..k]) + c.timeoutMs + delta
    ensures Run(c, start, ts).abandoned.Some?
    ensures Run(c, start, ts).abandoned.value <= LastPong(start, ts[..k]) + c.timeoutMs + delta
  {
    var due := LastPong(start, ts[..k]) + c.timeoutMs;
    LastPongGrows(start, ts, k, k, delta);
    var j := FirstCheck(start, ts, due, delta);
    if Run(c, start, ts[..j]).abandoned.Some? {
      AbandonedBeforeDue(c, start, ts, j, due);
      AbandonedForGood(c, start, ts, j);
    } else {
      LastPongBefore(start, ts, j, k, delta);
      DueCheckAbandons(c, start, ts, j);
      AbandonedForGood(c, start, ts, j + 1);
    }
  }

  /** The first check at or after a moment comes within one turn of it. */
  lemma FirstCheck(start: nat, ts: seq<Turn>, due: nat, delta: nat) returns (j: nat)
    requires Paced(start, ts, delta) && ts != [] && ts[|ts| - 1].now >= due && start <= due
    ensures j < |ts| && due <= ts[j].now <= due + delta
    ensures forall i :: 0 <= i < j ==> ts[i].now < due
  {
    j := 0;
    while ts[j].now < due
      invariant 0 <= j < |ts|
      invariant forall i :: 0 <= i < j ==> ts[i].now < due
      decreases |ts| - j
    {
      j := j + 1;
    }
    if j > 0 {
      assert ts[j - 1].now < due;
    }
  }

  lemma {:induction false} AbandonedAtSomeCheck(c: Config, start: nat, ts: seq<Turn>)
    requires Run(c, start, ts).abandoned.Some?
    ensures exists i :: 0 <= i < |ts| && Run(c, start, ts).abandoned == Some(ts[i].now)
  {
    var n := |ts| - 1;
    if Run(c, start, ts[..n]).abandoned.Some? {
      AbandonedAtSomeCheck(c, start, ts[..n]);
      var i :| 0 <= i < n && Run(c, start, ts[..n]).abandoned == Some(ts[..n][i].now);
      assert ts[i] == ts[..n][i];
    } else {
      assert Run(c, start, ts).abandoned == Some(ts[n].now);
    }
  }

  lemma {:induction false} LastPongGrows(start: nat, ts: seq<Turn>, j: nat, k: nat, delta: nat)
    requires Paced(start, ts, delta) && j <= k <= |ts|
    ensures start <= LastPong(start, ts[..j]) <= LastPong(start, ts[..k])
    ensures k > 0 ==> LastPong(start, ts[..k]) <= ts[k - 1].at
    decreases k
  {
    if k > 0 {
      assert ts[..k][..k - 1] == ts[..k - 1];
      if j < k {
        LastPongGrows(start, ts, j, k - 1, delta);
      } else {
        LastPongGrows(start, ts, k - 1, k - 1, delta);
      }
    }
  }

  /* ---------- a responsive peer ---------- */

  /** The oldest ping not yet followed by a handled pong. */
  function Waiting(c: Config, start: nat, ts: seq<Turn>): Option<nat> {
    if ts == [] then None
    else
      var n := |ts| - 1;
      var before := Waiting(c, start, ts[..n]);
      if ts[n].received.Pong? then None
      else if before.Some? then before
      else if ts[n].now >= Run(c, start, ts[..n]).nextPing then Some(ts[n].now)
      else None
  }

  /** At every check, a ping that has not been answered is at most `d` old. */
  ghost predicate Responsive(c: Config, start: nat, ts: seq<Turn>, d: nat) {
    forall i :: 0 <= i < |ts| ==>
      var w := Waiting(c, start, ts[..i]);
      w.Some? ==> ts[i].now <= w.value + d
  }

  lemma ResponsivePrefix(c: Config, start: nat, ts: seq<Turn>, d: nat)
    requires Responsive(c, start, ts, d) && ts != []
    ensures var n := |ts| - 1;
      Responsive(c, start, ts[..n], d) &&
      (Waiting(c, start, ts[..n]).Some? ==> ts[n].now <= Waiting(c, start, ts[..n]).value + d)
  {
    var n := |ts| - 1;
    forall i | 0 <= i < n
      ensures var w := Waiting(c, start, ts[..n][..i]); w.Some? ==> ts[..n][i].now <= w.value + d
    {
      assert ts[..n][..i] == ts[..i];
    }
  }

  /** The last ping, or the start of the loop. */
  function LastPing(start: nat, pings: seq<nat>): nat {
    if pings == [] then start else pings[|pings| - 1]
  }

  lemma {:induction false} NextPingFollowsLast(c: Config, start: nat, ts: seq<Turn>)
    requires Run(c, start, ts).abandoned.None?
    ensures var l := Run(c, start, ts); l.nextPing == LastPing(start, l.pings) + c.intervalMs
  {
    if ts != [] {
      var n := |ts| - 1;
      NextPingFollowsLast(c, start, ts[..n]);
      var before := Run(c, start, ts[..n]).pings;
      assert (before + [ts[n].now])[|before|] == ts[n].now;
    }
  }

  /** A ping goes out in the first turn that begins an interval or more after the last ping, and in no other. */
  lemma PingsExactlyWhenDue(c: Config, start: nat, ts: seq<Turn>, t: Turn)
    requires Run(c, start, ts).abandoned.None?
    ensures var pings := Run(c, start, ts).pings;
      Run(c, start, ts + [t]).pings ==
      pings + (if t.now >= LastPing(start, pings) + c.intervalMs then [t.now] else [])
  {
    NextPingFollowsLast(c, start, ts);
    assert (ts + [t])[..|ts + [t]| - 1] == ts;
  }

  ghost predicate Healthy(c: Config, start: nat, ts: seq<Turn>, delta: nat) {
    var l, w := Run(c, start, ts), Waiting(c, start, ts);
    && l.abandoned.None?
    && l.nextPing == LastPing(start, l.pings) + c.intervalMs
    && start <= LastPing(start, l.pings)
    && (ts != [] ==> LastPing(start, l.pings) <= ts[|ts| - 1].now < l.nextPing)
    && (w.None? ==> l.pongDeadline >= LastPing(start, l.pings) + c.timeoutMs)
    && (w.Some? ==> l.pongDeadline + c.intervalMs + delta >= w.value + c.timeoutMs)
  }

  lemma HealthyStep(c: Config, start: nat, ts: seq<Turn>, delta: nat, d: nat)
    requires ts != [] && Paced(start, ts, delta)
    requires c.intervalMs > 0 && c.intervalMs + delta + d < c.timeoutMs
    requires var n := |ts| - 1;
      && Healthy(c, start, ts[..n], delta)
      && (Waiting(c, start, ts[..n]).Some? ==> ts[n].now <= Waiting(c, start, ts[..n]).value + d)
    ensures Healthy(c, start, ts, delta)
  {
    var n := |ts| - 1;
    var l, w, t := Run(c, start, ts[..n]), Waiting(c, start, ts[..n]), ts[n];
    if n > 0 {
      assert ts[..n][|ts[..n]| - 1] == ts[n - 1];
      assert ts[n - 1].at <= t.now <= ts[n - 1].now + delta;
    }
    var last := LastPing(start, l.pings);
    assert last <= t.now <= last + c.intervalMs + delta;
    assert t.now < l.pongDeadline;
    var l' := Run(c, start, ts);
    assert l' == Step(c, l, t);
    if t.now >= l.nextPing {
      assert l'.pings == l.pings + [t.now];
    }
  }

  /** A peer whose pong is handled within `d` of each ping is never abandoned, if interval + delta + d < timeout. */
  lemma {:induction false} ResponsivePeerIsKept(c: Config, start: nat, ts: seq<Turn>, delta: nat, d: nat)
    requires Paced(start, ts, delta) && Responsive(c, start, ts, d)
    requires c.intervalMs > 0 && c.intervalMs + delta + d < c.timeoutMs
    ensures Healthy(c, start, ts, delta)
  {
    if ts != [] {
      var n := |ts| - 1;
      PacedPrefix(start, ts, delta, n);
      ResponsivePrefix(c, start, ts, d);
      ResponsivePeerIsKept(c, start, ts[..n], delta, d);
      HealthyStep(c, start, ts, delta, d);
    }
  }

  /* ---------- the select loop: the deadline is an event of its own ---------- */

  datatype Selected = Tick | GotPong | GotOther | ReadEnded | DeadlinePassed

  datatype Choice = Choice(at: nat, what: Selected)

  /** `None` once the loop has been left. */
  function SelectDeadline(c: Config, start: nat, cs: seq<Choice>): Option<nat> {
    if cs == [] then Some(start + c.timeoutMs)
    else
      var n := |cs| - 1;
      var deadline := SelectDeadline(c, start, cs[..n]);
      if deadline.None? then None
      else match cs[n].what
        case DeadlinePassed => None
        case ReadEnded => None
        case GotPong => Some(cs[n].at + c.timeoutMs)
        case _ => deadline
  }

  /** The loop itself; it is left by a break, or still running after the last choice. */
  method SelectLoop(c: Config, start: nat, cs: seq<Choice>) returns (deadline: Option<nat>, turns: nat)
    ensures deadline == SelectDeadline(c, start, cs)
    ensures turns <= |cs| && (deadline.Some? ==> turns == |cs|)
    ensures deadline.None? ==> turns > 0 && SelectDeadline(c, start, cs[..turns]).None?
                               && SelectDeadline(c, start, cs[..turns - 1]).Some?
  {
    var pongDeadline: nat := start + c.timeoutMs;
    turns := 0;
    assert cs[..0] == [];
    while turns < |cs|
      invariant 0 <= turns <= |cs|
      invariant SelectDeadline(c, start, cs[..turns]) == Some(pongDeadline)
    {
      var choice := cs[turns];
      assert cs[..turns + 1][..turns] == cs[..turns];
      turns := turns + 1;
      match choice.what
      case Tick =>
      case GotOther =>
      case GotPong => pongDeadline := choice.at + c.timeoutMs;
      case ReadEnded =>
        LeftForGood(c, start, cs, turns);
        return None, turns;
      case DeadlinePassed =>
        LeftForGood(c, start, cs, turns);
        return None, turns;
    }
    assert cs[..turns] == cs;
    deadline := Some(pongDeadline);
  }

  lemma {:induction false} LeftForGood(c: Config, start: nat, cs: seq<Choice>, n: nat)
    requires n <= |cs| && SelectDeadline(c, start, cs[..n]).None?
    ensures SelectDeadline(c, start, cs).None?
    decreases |cs|
  {
    if n == |cs| {
      assert cs[..n] == cs;
    } else {
      assert cs[..|cs| - 1][..n] == cs[..n];
      LeftForGood(c, start, cs[..|cs| - 1], n);
    }
  }

  /** The loop is left exactly by a passed deadline or the end of what can be read. */
  lemma {:induction false} LeftExactly(c: Config, start: nat, cs: seq<Choice>)
    ensures SelectDeadline(c, start, cs).None? <==>
              exists i :: 0 <= i < |cs| && (cs[i].what.DeadlinePassed? || cs[i].what.ReadEnded?)
  {
    if cs != [] {
      var n := |cs| - 1;
      LeftExactly(c, start, cs[..n]);
      if SelectDeadline(c, start, cs[..n]).None? {
        var i :| 0 <= i < n && (cs[..n][i].what.DeadlinePassed? || cs[..n][i].what.ReadEnded?);
        assert cs[i] == cs[..n][i];
      }
    }
  }

  /**
   The runtime picks a branch that is ready, in time order. Among branches that are ready at once it picks
   at random, so a passed deadline may wait behind the others, but for no longer than `late`.
   */
  ghost predicate FairChoice(deadline: Option<nat>, previous: nat, choice: Choice, late: nat) {
    && deadline.Some?
    && previous <= choice.at <= deadline.value + late
    && (choice.what.DeadlinePassed? ==> choice.at >= deadline.value)
  }

  ghost predicate FairAt(c: Config, start: nat, cs: seq<Choice>, i: nat, late: nat)
    requires i < |cs|
  {
    FairChoice(SelectDeadline(c, start, cs[..i]), if i == 0 then start else cs[i - 1].at, cs[i], late)
  }

  ghost predicate Fair(c: Config, start: nat, cs: seq<Choice>, late: nat) {
    forall i :: 0 <= i < |cs| ==> FairAt(c, start, cs, i, late)
  }

  function LastPongOf(start: nat, cs: seq<Choice>): nat {
    if cs == [] then start
    else if cs[|cs| - 1].what.GotPong? then cs[|cs| - 1].at
    else LastPongOf(start, cs[..|cs| - 1])
  }

  lemma {:induction false} SelectDeadlineIsLastPong(c: Config, start: nat, cs: seq<Choice>)
    requires SelectDeadline(c, start, cs).Some?
    ensures SelectDeadline(c, start, cs).value == LastPongOf(start, cs) + c.timeoutMs
  {
    if cs != [] {
      SelectDeadlineIsLastPong(c, start, cs[..|cs| - 1]);
    }
  }

  lemma {:induction false} LastPongOfSilent(start: nat, cs: seq<Choice>, k: nat)
    requires k <= |cs| && forall i :: k <= i < |cs| ==> !cs[i].what.GotPong?
    ensures LastPongOf(start, cs) == LastPongOf(start, cs[..k])
    decreases |cs|
  {
    if k == |cs| {
      assert cs[..k] == cs;
    } else {
      assert cs[..|cs| - 1][..k] == cs[..k];
      LastPongOfSilent(start, cs[..|cs| - 1], k);
    }
  }

  /**
   The select loop gives up no earlier than a timeout after the last pong; and a peer silent from turn `k`
   on keeps it going no longer than `late` beyond that, whatever else is received.
   */
  lemma SelectGivesUpOnTime(c: Config, start: nat, cs: seq<Choice>, k: nat, i: nat, late: nat)
    requires Fair(c, start, cs, late) && k <= i < |cs|
    requires forall j :: k <= j < i ==> !cs[j].what.GotPong?
    ensures cs[i].at <= LastPongOf(start, cs[..k]) + c.timeoutMs + late
    ensures cs[i].what.DeadlinePassed? ==> cs[i].at >= LastPongOf(start, cs[..k]) + c.timeoutMs && i == |cs| - 1
  {
    assert FairAt(c, start, cs, i, late);
    SelectDeadlineIsLastPong(c, start, cs[..i]);
    LastPongOfSilent(start, cs[..i], k);
    assert cs[..i][..k] == cs[..k];
    if i < |cs| - 1 {
      assert cs[..i + 1][..i] == cs[..i];
      assert FairAt(c, start, cs, i + 1, late);
    }
  }

  function LastTick(start: nat, cs: seq<Choice>): nat {
    if cs == [] then start
    else if cs[|cs| - 1].what.Tick? then cs[|cs| - 1].at
    else LastTick(start, cs[..|cs| - 1])
  }

  /** The oldest tick's ping not yet followed by a pong. */
  function WaitingTick(cs: seq<Choice>): Option<nat> {
    if cs == [] then None
    else
      var n := |cs| - 1;
      var before := WaitingTick(cs[..n]);
      if cs[n].what.GotPong? then None
      else if before.None? && cs[n].what.Tick? then Some(cs[n].at)
      else before
  }

  /** At event `i` the last tick is at most an interval old, and an unanswered ping at most `d`. */
  predicate Lively(c: Config, start: nat, cs: seq<Choice>, i: nat, d: nat)
    requires i < |cs|
  {
    && cs[i].at <= LastTick(start, cs[..i]) + c.intervalMs
    && (WaitingTick(cs[..i]).Some? ==> cs[i].at <= WaitingTick(cs[..i]).value + d)
  }

  lemma {:induction false} PongsKeepUp(c: Config, start: nat, cs: seq<Choice>, n: nat, d: nat, late: nat)
    requires n <= |cs| && Fair(c, start, cs, late)
    requires forall i :: 0 <= i < n ==> Lively(c, start, cs, i, d)
    ensures var w, pong := WaitingTick(cs[..n]), LastPongOf(start, cs[..n]);
      && LastTick(start, cs[..n]) <= (if n == 0 then start else cs[n - 1].at)
      && (w.None? ==> LastTick(start, cs[..n]) <= pong)
      && (w.Some? ==> w.value <= pong + c.intervalMs)
  {
    if n > 0 {
      PongsKeepUp(c, start, cs, n - 1, d, late);
      assert cs[..n][..n - 1] == cs[..n - 1];
      assert Lively(c, start, cs, n - 1, d) && FairAt(c, start, cs, n - 1, late);
    }
  }

  /** A peer whose pong comes within `d` of each ping is never given up, if interval + d < timeout. */
  lemma SelectKeepsResponsivePeer(c: Config, start: nat, cs: seq<Choice>, d: nat, late: nat)
    requires Fair(c, start, cs, late) && c.intervalMs + d < c.timeoutMs
    requires forall i :: 0 <= i < |cs| ==> Lively(c, start, cs, i, d)
    ensures forall i :: 0 <= i < |cs| ==> !cs[i].what.DeadlinePassed?
  {
    forall i | 0 <= i < |cs|
      ensures !cs[i].what.DeadlinePassed?
    {
      PongsKeepUp(c, start, cs, i, d, late);
      assert Lively(c, start, cs, i, d);
      SelectGivesUpOnTime(c, start, cs, i, i, late);
    }
  }

  /* ---------- the re-arming timer: every ping postpones the timeout ---------- */

  /** `deadline` is the timeout's due time, armed by the last ping or pong; none before the first ping. */
  datatype Rearming = Rearming(nextPing: nat, deadline: Option<nat>, closedAt: Option<nat>)

  /** The next timer that is due; when both are due at once the runtime decides. */
  function Next(c: Config, r: Rearming, timerFirst: bool): Rearming {
    if r.closedAt.Some? then r
    else if r.deadline.Some? && (r.deadline.value < r.nextPing || (timerFirst && r.deadline.value == r.nextPing)) then
      r.(closedAt := r.deadline)
    else Rearming(r.nextPing + c.intervalMs, Some(r.nextPing + c.timeoutMs), None)
  }

  /** A pong postpones an armed timeout and arms none. */
  function OnPong(c: Config, r: Rearming, at: nat): Rearming {
    if r.closedAt.Some? || r.deadline.None? then r else r.(deadline := Some(at + c.timeoutMs))
  }

  datatype Beat = Due | PongAt(at: nat)

  /** A pong is handled after the last arming and before the next timer. */
  predicate Timely(c: Config, r: Rearming, b: Beat) {
    b.PongAt? ==>
      && b.at <= r.nextPing
      && (r.deadline.Some? ==> r.deadline.value <= b.at + c.timeoutMs && b.at <= r.deadline.value)
  }

  function Beats(c: Config, openedAt: nat, timerFirst: bool, bs: seq<Beat>): Rearming {
    if bs == [] then Rearming(openedAt + c.intervalMs, None, None)
    else
      var r, b := Beats(c, openedAt, timerFirst, bs[..|bs| - 1]), bs[|bs| - 1];
      if b.Due? then Next(c, r, timerFirst) else OnPong(c, r, b.at)
  }

  ghost predicate TimelyRun(c: Config, openedAt: nat, timerFirst: bool, bs: seq<Beat>) {
    bs != [] ==>
      var n := |bs| - 1;
      TimelyRun(c, openedAt, timerFirst, bs[..n]) && Timely(c, Beats(c, openedAt, timerFirst, bs[..n]), bs[n])
  }

  function PingsIn(bs: seq<Beat>): nat {
    Count(bs, (b: Beat) => b.Due?)
  }

  /** The moment of the last ping, the pings coming one interval apart, or of the last pong after the first ping. */
  function LastArming(c: Config, openedAt: nat, bs: seq<Beat>): Option<nat> {
    if bs == [] then None
    else
      var n := |bs| - 1;
      var before := LastArming(c, openedAt, bs[..n]);
      if bs[n].Due? then Some(openedAt + (PingsIn(bs[..n]) + 1) * c.intervalMs)
      else if before.Some? then Some(bs[n].at)
      else None
  }

  lemma OneMoreInterval(c: Config, k: nat)
    ensures (k + 1) * c.intervalMs == k * c.intervalMs + c.intervalMs
  {
  }

  lemma PingsSnoc(bs: seq<Beat>)
    requires bs != []
    ensures PingsIn(bs) == PingsIn(bs[..|bs| - 1]) + (if bs[|bs| - 1].Due? then 1 else 0)
  {
  }

  /** While the connection is open, every ping and every pong after it arms the timeout afresh. */
  lemma {:induction false} DeadlineFollowsLastBeat(c: Config, openedAt: nat, timerFirst: bool, bs: seq<Beat>)
    requires Beats(c, openedAt, timerFirst, bs).closedAt.None?
    ensures var r, armed := Beats(c, openedAt, timerFirst, bs), LastArming(c, openedAt, bs);
      && r.nextPing == openedAt + (PingsIn(bs) + 1) * c.intervalMs
      && r.deadline == if armed.Some? then Some(armed.value + c.timeoutMs) else None
  {
    if bs != [] {
      var n := |bs| - 1;
      DeadlineFollowsLastBeat(c, openedAt, timerFirst, bs[..n]);
      PingsSnoc(bs);
      OneMoreInterval(c, PingsIn(bs[..n]) + 1);
    }
  }

  /** What is closed stays closed, at that moment. */
  lemma {:induction false} ClosedForGood(c: Config, openedAt: nat, timerFirst: bool, bs: seq<Beat>, n: nat)
    requires n <= |bs| && Beats(c, openedAt, timerFirst, bs[..n]).closedAt.Some?
    ensures Beats(c, openedAt, timerFirst, bs) == Beats(c, openedAt, timerFirst, bs[..n])
    decreases |bs|
  {
    if n == |bs| {
      assert bs[..n] == bs;
    } else {
      assert bs[..|bs| - 1][..n] == bs[..n];
      ClosedForGood(c, openedAt, timerFirst, bs[..|bs| - 1], n);
    }
  }

  /** The timeout was armed at some moment after which the next ping comes within an interval. */
  predicate Armed(c: Config, r: Rearming) {
    r.deadline.Some? ==> r.deadline.value <= r.nextPing + c.timeoutMs <= r.deadline.value + c.intervalMs
  }

  lemma {:induction false} StaysArmed(c: Config, openedAt: nat, timerFirst: bool, bs: seq<Beat>)
    requires TimelyRun(c, openedAt, timerFirst, bs)
    ensures Armed(c, Beats(c, openedAt, timerFirst, bs))
  {
    if bs != [] {
      StaysArmed(c, openedAt, timerFirst, bs[..|bs| - 1]);
    }
  }

  /** What the timers do when nothing is received any more. */
  function Silent(c: Config, r: Rearming, timerFirst: bool, n: nat): Rearming {
    if n == 0 then r else Next(c, Silent(c, r, timerFirst, n - 1), timerFirst)
  }

  /** Exactly when a dead peer is detected at all: the timeout must fire before the next ping re-arms it. */
  predicate Detects(c: Config, timerFirst: bool) {
    c.timeoutMs < c.intervalMs || (timerFirst && c.timeoutMs == c.intervalMs)
  }

  lemma NextStaysOpen(c: Config, r: Rearming, timerFirst: bool)
    requires Armed(c, r) && !Detects(c, timerFirst)
    ensures Armed(c, Next(c, r, timerFirst)) && (r.closedAt.None? ==> Next(c, r, timerFirst).closedAt.None?)
  {
  }

  lemma {:induction false} SilentStaysOpen(c: Config, r: Rearming, timerFirst: bool, n: nat)
    requires Armed(c, r) && r.closedAt.None? && !Detects(c, timerFirst)
    ensures Armed(c, Silent(c, r, timerFirst, n)) && Silent(c, r, timerFirst, n).closedAt.None?
  {
    if n > 0 {
      SilentStaysOpen(c, r, timerFirst, n - 1);
      NextStaysOpen(c, Silent(c, r, timerFirst, n - 1), timerFirst);
    }
  }

  /**
   A peer that falls silent after any history of answers, or of none, is closed at some point iff the
   timeout is shorter than the ping interval.
   */
  lemma SilentPeerDetectedExactly(c: Config, openedAt: nat, timerFirst: bool, bs: seq<Beat>)
    requires TimelyRun(c, openedAt, timerFirst, bs)
    ensures var r := Beats(c, openedAt, timerFirst, bs);
      r.closedAt.None? ==> ((exists n :: Silent(c, r, timerFirst, n).closedAt.Some?) <==> Detects(c, timerFirst))
  {
    var r := Beats(c, openedAt, timerFirst, bs);
    StaysArmed(c, openedAt, timerFirst, bs);
    if r.closedAt.None? {
      if Detects(c, timerFirst) {
        ClosedInTwo(c, r, timerFirst);
        assert Silent(c, r, timerFirst, 2).closedAt.Some?;
      } else {
        forall n: nat
          ensures Silent(c, r, timerFirst, n).closedAt.None?
        {
          SilentStaysOpen(c, r, timerFirst, n);
        }
      }
    }
  }

  lemma ClosedInTwo(c: Config, r: Rearming, timerFirst: bool)
    requires Detects(c, timerFirst)
    ensures Silent(c, r, timerFirst, 2).closedAt.Some?
  {
    assert Silent(c, r, timerFirst, 1) == Next(c, r, timerFirst);
    assert Silent(c, r, timerFirst, 2) == Next(c, Next(c, r, timerFirst), timerFirst);
  }

  /** With the default timings the reference client closes no connection, whatever is answered and when. */
  lemma {:induction false} DefaultsNeverDetect(openedAt: nat, timerFirst: bool, bs: seq<Beat>)
    requires TimelyRun(Config(15_000, 30_000), openedAt, timerFirst, bs)
    ensures Beats(Config(15_000, 30_000), openedAt, timerFirst, bs).closedAt.None?
  {
    if bs != [] {
      var n, c := |bs| - 1, Config(15_000, 30_000);
      DefaultsNeverDetect(openedAt, timerFirst, bs[..n]);
      StaysArmed(c, openedAt, timerFirst, bs[..n]);
      NextStaysOpen(c, Beats(c, openedAt, timerFirst, bs[..n]), timerFirst);
    }
  }

  /**
   Timings that do detect silence close a healthy connection, too: a peer that answers a ping within `d` is
   closed before the next ping if d + timeout is shorter than the interval.
   */
  lemma AnsweringPeerIsClosed(c: Config, r: Rearming, timerFirst: bool, at: nat, d: nat)
    requires r.closedAt.None? && (r.deadline.Some? ==> r.nextPing < r.deadline.value)
    requires r.nextPing <= at <= r.nextPing + d && d + c.timeoutMs < c.intervalMs
    requires Timely(c, Next(c, r, timerFirst), PongAt(at))
    ensures Next(c, OnPong(c, Next(c, r, timerFirst), at), timerFirst).closedAt == Some(at + c.timeoutMs)
  {
  }
}
