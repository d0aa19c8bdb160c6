/** The retry loops of the PHP and the Rust client: how long they sleep between connection attempts. */
module Backoff {
  import opened Common

  datatype Config = Config(initialMs: nat, maxMs: nat)

  /** The delay after `k` doublings: only a doubled delay is capped. */
  function Exponential(c: Config, k: nat): nat {
    if k == 0 then c.initialMs else Min(c.initialMs * Pow2(k), c.maxMs)
  }

  lemma DoubledOnce(c: Config, k: nat)
    ensures Min(Exponential(c, k) * 2, c.maxMs) == Exponential(c, k + 1)
  {
    assert Pow2(k + 1) == 2 * Pow2(k);
    assert c.initialMs * (2 * Pow2(k)) == (c.initialMs * Pow2(k)) * 2;
  }

  /* ---------- PHP: a completed handshake resets the delay ---------- */

  /** `factor` is the random number drawn for the sleep, in thousandths. */
  datatype Attempt = Attempt(connected: bool, factor: nat)

  /** The cast to int truncates. */
  function Jitter(base: nat, max: nat, factor: nat): nat {
    Min(base * factor / 1000, max)
  }

  /** Sleeps since the last completed handshake, counting the one right after it. */
  function SleepsSince(attempts: seq<Attempt>): nat {
    if attempts == [] then 0
    else
      var n := |attempts| - 1;
      if attempts[n].connected then 1 else SleepsSince(attempts[..n]) + 1
  }

  /** The sleep after attempt `i` starts from the initial delay, doubled once per sleep since the last handshake. */
  function SleepAfter(c: Config, attempts: seq<Attempt>, i: nat): nat
    requires i < |attempts|
  {
    var k := if attempts[i].connected then 0 else SleepsSince(attempts[..i]);
    Jitter(Exponential(c, k), c.maxMs, attempts[i].factor)
  }

  method Start(c: Config, attempts: seq<Attempt>) returns (sleeps: seq<nat>)
    ensures |sleeps| == |attempts|
    ensures forall i :: 0 <= i < |attempts| ==> sleeps[i] == SleepAfter(c, attempts, i)
  {
    sleeps := [];
    var delay := c.initialMs;
    for i := 0 to |attempts|
      invariant delay == Exponential(c, SleepsSince(attempts[..i]))
      invariant |sleeps| == i
      invariant forall j :: 0 <= j < i ==> sleeps[j] == SleepAfter(c, attempts, j)
    {
      assert attempts[..i + 1][..i] == attempts[..i];
      if attempts[i].connected {
        delay := c.initialMs;
      }
      sleeps := sleeps + [Jitter(delay, c.maxMs, attempts[i].factor)];
      DoubledOnce(c, if attempts[i].connected then 0 else SleepsSince(attempts[..i]));
      delay := Min(delay * 2, c.maxMs);
    }
  }

  /** Whatever was drawn, a sleep is never above the maximum and never below the smaller of initial and maximum. */
  lemma SleepIsBounded(c: Config, attempts: seq<Attempt>, i: nat)
    requires i < |attempts| && 1000 <= attempts[i].factor <= 1500
    ensures Min(c.initialMs, c.maxMs) <= SleepAfter(c, attempts, i) <= c.maxMs
  {
    var k := if attempts[i].connected then 0 else SleepsSince(attempts[..i]);
    AtLeastInitial(c, k);
    JitterAdds(Exponential(c, k), c.maxMs, attempts[i].factor);
  }

  /** The sleep is the delay times the factor, cut to whole milliseconds and to the maximum. */
  lemma SleepIsCutExactly(c: Config, attempts: seq<Attempt>, i: nat)
    requires i < |attempts|
    ensures var base := Exponential(c, if attempts[i].connected then 0 else SleepsSince(attempts[..i]));
      var exact, sleep := base * attempts[i].factor, SleepAfter(c, attempts, i);
      sleep <= c.maxMs && sleep * 1000 <= exact && (sleep < c.maxMs ==> exact < (sleep + 1) * 1000)
  {
  }

  lemma JitterAdds(base: nat, max: nat, factor: nat)
    requires factor >= 1000
    ensures Min(base, max) <= Jitter(base, max, factor) <= max
  {
    TimesAtLeast(base, factor, 1000);
    ThousandthsOf(base, base * factor);
  }

  lemma TimesAtLeast(base: nat, factor: nat, k: nat)
    requires factor >= k
    ensures base * factor >= base * k
  {
  }

  lemma ThousandthsOf(base: nat, product: nat)
    requires product >= base * 1000
    ensures product / 1000 >= base
  {
  }

  lemma {:induction false} AtLeastInitial(c: Config, k: nat)
    ensures Exponential(c, k) >= Min(c.initialMs, c.maxMs)
  {
    if k > 0 {
      AtLeastInitial(c, k - 1);
      DoubledOnce(c, k - 1);
    }
  }

  /* ---------- Rust: every way out of a connection is an error ---------- */

  datatype Ending = Unreachable | SendFails | NotAuthenticated | PeerGone | HeartbeatMissed

  datatype Error = Ws | AuthTimeout

  datatype Result = Ok | Err(error: Error)

  function ConnectOnce(e: Ending): Result {
    match e
    case Unreachable => Err(Ws)
    case SendFails => Err(Ws)
    case NotAuthenticated => Err(AuthTimeout)
    case PeerGone => Err(AuthTimeout)          // a connection that served for any length of time
    case HeartbeatMissed => Err(AuthTimeout)
  }

  /** A connection that served for any length of time ends as if it had never been authenticated. */
  lemma OnlyEarlyFaultsAreTransportErrors(e: Ending)
    ensures ConnectOnce(e) == (if e.Unreachable? || e.SendFails? then Err(Ws) else Err(AuthTimeout))
  {
  }

  /**
   The bases of the sleeps. Resetting is in the loop but never reached: the n-th sleep starts from the
   delay doubled n times, whatever the connections before it achieved.
   */
  method RunWithReconnect(c: Config, endings: seq<Ending>) returns (bases: seq<nat>)
    ensures |bases| == |endings| && forall i :: 0 <= i < |endings| ==> bases[i] == Exponential(c, i)
  {
    bases := [];
    var delay := c.initialMs;
    for i := 0 to |endings|
      invariant delay == Exponential(c, i) && |bases| == i
      invariant forall j :: 0 <= j < i ==> bases[j] == Exponential(c, j)
    {
      match ConnectOnce(endings[i])
      case Ok => delay := c.initialMs;
      case Err(_) =>
        bases := bases + [delay];
        DoubledOnce(c, i);
        delay := Min(delay * 2, c.maxMs);
    }
  }

  /** The sleep itself, over exact durations. */
  function JitteredSleep(base: nat, max: nat, factor: real): real {
    var d := base as real * factor;
    if d < max as real then d else max as real
  }

  /** It is the stretched delay or the maximum, whichever is shorter. */
  lemma SleepIsTheShorter(base: nat, max: nat, factor: real)
    ensures var sleep := JitteredSleep(base, max, factor);
      && sleep <= base as real * factor && sleep <= max as real
      && (sleep == base as real * factor || sleep == max as real)
  {
  }

  /** From the first doubling that reaches the maximum on, every sleep is exactly the maximum. */
  lemma SaturatedForGood(c: Config, i: nat, j: nat, factor: real)
    requires i <= j && 0 < i && c.initialMs * Pow2(i) >= c.maxMs && 1.0 <= factor <= 1.5
    ensures JitteredSleep(Exponential(c, j), c.maxMs, factor) == c.maxMs as real
  {
    PowGrows(c, i, j);
    assert Exponential(c, j) == c.maxMs;
    assert c.maxMs as real * factor >= c.maxMs as real * 1.0;
  }

  lemma {:induction false} PowGrows(c: Config, i: nat, j: nat)
    requires i <= j
    ensures c.initialMs * Pow2(i) <= c.initialMs * Pow2(j)
    decreases j
  {
    if i < j {
      PowGrows(c, i, j - 1);
      assert c.initialMs * Pow2(j) == (c.initialMs * Pow2(j - 1)) * 2;
    }
  }
}
