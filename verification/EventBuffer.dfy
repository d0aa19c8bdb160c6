/** The consumer's bounded event log, and what its queries say about the whole history. */
module EventBuffer {
  import opened Common

  datatype BridgeEvent = BridgeEvent(typ: string, level: string, payload: nat)

  datatype BufferedEvent = BufferedEvent(id: nat, ev: BridgeEvent)

  /** Array.prototype.slice with one argument. */
  function Slice<T>(xs: seq<T>, start: int): seq<T> {
    if start < 0 then (if -start >= |xs| then xs else xs[|xs| + start..])
    else if start >= |xs| then [] else xs[start..]
  }

  predicate IsError(e: BufferedEvent) { e.ev.level == "error" }
  predicate IsNetwork(e: BufferedEvent) { e.ev.typ == "network" }
  predicate IsNavigation(e: BufferedEvent) { e.ev.typ == "navigation" || e.ev.typ == "pageview" }
  predicate IsScreenshot(e: BufferedEvent) { e.ev.typ == "screenshot" }

  /** Every event ever pushed, with its id: the unbounded log. */
  function Numbered(history: seq<BridgeEvent>): seq<BufferedEvent> {
    seq(|history|, i requires 0 <= i < |history| => BufferedEvent(i + 1, history[i]))
  }

  predicate IsLast<T(==)>(x: T, xs: seq<T>) {
    xs != [] && x == xs[|xs| - 1]
  }

  datatype Stats = Stats(totalEvents: nat, errorCount: nat, lastId: nat)

  class Buffer {
    const limit: nat
    var counter: nat
    var events: seq<BufferedEvent>
    ghost var history: seq<BridgeEvent>

    /** The buffer is the last `limit` entries of the unbounded log. */
    ghost predicate Valid()
      reads this
    {
      limit > 0 && counter == |history| && events == LastN(Numbered(history), limit)
    }

    constructor (limit: int)
      ensures Valid() && history == []
      ensures this.limit == if limit < 1 then 1 else limit
    {
      this.limit := if limit < 1 then 1 else limit;
      counter, events, history := 0, [], [];
    }

    method Push(ev: BridgeEvent) returns (buffered: BufferedEvent)
      requires Valid()
      modifies this
      ensures Valid() && history == old(history) + [ev]
      ensures buffered == BufferedEvent(|history|, ev)
    {
      counter := counter + 1;
      buffered := BufferedEvent(counter, ev);
      NumberedSnoc(history, ev);
      LastNSnoc(Numbered(history), buffered, limit);
      history := history + [ev];
      events := events + [buffered];
      if |events| > limit {
        events := Slice(events, -(limit as int));
      }
    }

    /** The newest `max` of all events ever pushed, as far as they are still held; zero means all that are. */
    method Recent(max: int) returns (r: seq<BufferedEvent>)
      requires Valid()
      ensures max >= 1 ==> r == LastN(Numbered(history), Min(max, limit))
      ensures max == 0 ==> r == LastN(Numbered(history), limit)
      ensures max < 0 ==> r == LastN(Numbered(history), if |events| > -max then |events| + max else 0)
    {
      r := Slice(events, -max);
    }

    method Matching(keep: BufferedEvent -> bool, max: int) returns (r: seq<BufferedEvent>)
      ensures r == Slice(Filter(events, keep), -max)
    {
      r := [];
      assert events[..0] == [];
      for i := 0 to |events|
        invariant r == Filter(events[..i], keep)
      {
        assert events[..i + 1][..i] == events[..i];
        if keep(events[i]) {
          r := r + [events[i]];
        }
      }
      assert events[..|events|] == events;
      r := Slice(r, -max);
    }

    method Errors(max: int) returns (r: seq<BufferedEvent>)
      ensures r == Slice(Filter(events, (e: BufferedEvent) => e.ev.level == "error"), -max)
    {
      r := Matching(IsError, max);
      FilterSame(events, IsError, (e: BufferedEvent) => e.ev.level == "error");
    }

    method Network(max: int) returns (r: seq<BufferedEvent>)
      ensures r == Slice(Filter(events, (e: BufferedEvent) => e.ev.typ == "network"), -max)
    {
      r := Matching(IsNetwork, max);
      FilterSame(events, IsNetwork, (e: BufferedEvent) => e.ev.typ == "network");
    }

    /** Page views count as navigation. */
    method Navigation(max: int) returns (r: seq<BufferedEvent>)
      ensures r == Slice(Filter(events, (e: BufferedEvent) => e.ev.typ in {"navigation", "pageview"}), -max)
    {
      r := Matching(IsNavigation, max);
      FilterSame(events, IsNavigation, (e: BufferedEvent) => e.ev.typ in {"navigation", "pageview"});
    }

    /** The newest buffered screenshot. */
    method LatestScreenshot() returns (r: Option<BufferedEvent>)
      ensures match r
        case Some(e) => IsLast(e, Filter(events, (x: BufferedEvent) => x.ev.typ == "screenshot"))
        case None => forall e :: e in events ==> e.ev.typ != "screenshot"
    {
      FilterSame(events, IsScreenshot, (x: BufferedEvent) => x.ev.typ == "screenshot");
      FilterMembers(events, IsScreenshot);
      var i := |events|;
      assert events[..i] == events;
      while i > 0
        invariant 0 <= i <= |events|
        invariant Filter(events[..i], IsScreenshot) == Filter(events, IsScreenshot)
      {
        i := i - 1;
        assert events[..i + 1][..i] == events[..i];
        if IsScreenshot(events[i]) {
          return Some(events[i]);
        }
      }
      r := None;
    }

    method ComputeStats() returns (r: Stats)
      requires Valid()
      ensures r.totalEvents == if |history| < limit then |history| else limit
      ensures r.errorCount == |Filter(events, (e: BufferedEvent) => e.ev.level == "error")|
      ensures r.lastId == |history|
    {
      var errors := Matching(IsError, |events| + 1);
      FilterShrinks(events, IsError);
      FilterSame(events, IsError, (e: BufferedEvent) => e.ev.level == "error");
      r := Stats(|events|, |errors|, if |events| > 0 then events[|events| - 1].id else 0);
    }
  }

  lemma NumberedSnoc(history: seq<BridgeEvent>, ev: BridgeEvent)
    ensures Numbered(history + [ev]) == Numbered(history) + [BufferedEvent(|history| + 1, ev)]
  {
  }

  lemma LastNSnoc<T>(xs: seq<T>, x: T, n: nat)
    requires n > 0
    ensures var kept := LastN(xs, n) + [x]; LastN(xs + [x], n) == if |kept| > n then kept[|kept| - n..] else kept
  {
  }

  lemma {:induction false} FilterSame<T>(xs: seq<T>, p: T -> bool, q: T -> bool)
    requires forall x :: p(x) == q(x)
    ensures Filter(xs, p) == Filter(xs, q)
  {
    if xs != [] {
      FilterSame(xs[..|xs| - 1], p, q);
    }
  }

  lemma {:induction false} FilterShrinks<T>(xs: seq<T>, keep: T -> bool)
    ensures |Filter(xs, keep)| <= |xs|
  {
    if xs != [] {
      FilterShrinks(xs[..|xs| - 1], keep);
    }
  }

  /* ---------- what the queries mean ---------- */

  /** Ids in the buffer are contiguous and end at the number of pushes. */
  lemma IdsAreContiguous(history: seq<BridgeEvent>, limit: nat, i: nat)
    requires i < |LastN(Numbered(history), limit)|
    ensures var events := LastN(Numbered(history), limit);
      events[i].id == |history| - |events| + i + 1 && events[i].ev == history[events[i].id - 1]
  {
  }

  /** For a positive maximum, slice(-max) is the suffix of that length. */
  lemma PositiveSliceIsSuffix<T>(xs: seq<T>, max: int)
    requires max >= 1
    ensures Slice(xs, -max) == LastN(xs, max)
  {
  }

  /** slice(-0) returns everything, so a query for zero events is empty exactly when nothing matches. */
  lemma ZeroMeansEverything<T>(xs: seq<T>)
    ensures Slice(xs, -0) == xs
    ensures Slice(xs, -0) == [] <==> xs == []
  {
  }

  /** A query over the buffer is the same query over the whole history, cut to what the window still holds. */
  lemma QueryAgreesWithHistory(history: seq<BridgeEvent>, limit: nat, keep: BufferedEvent -> bool, max: nat)
    requires max >= 1
    ensures var all, held := Filter(Numbered(history), keep), Filter(LastN(Numbered(history), limit), keep);
      LastN(held, max) == LastN(all, if max < |held| then max else |held|)
    ensures var all, held := Filter(Numbered(history), keep), Filter(LastN(Numbered(history), limit), keep);
      LastN(held, max) == LastN(all, max) <==> (|held| >= max || |held| == |all|)
  {
    var log := Numbered(history);
    var k := |log| - |LastN(log, limit)|;
    assert log == log[..k] + log[k..] && LastN(log, limit) == log[k..];
    FilterConcat(log[..k], log[k..], keep);
    var lost, held := Filter(log[..k], keep), Filter(log[k..], keep);
    assert Filter(log, keep) == lost + held;
    SuffixOfConcat(lost, held, max);
  }

  lemma SuffixOfConcat<T>(lost: seq<T>, held: seq<T>, max: nat)
    requires max >= 1
    ensures LastN(held, max) == LastN(lost + held, if max < |held| then max else |held|)
    ensures LastN(held, max) == LastN(lost + held, max) <==> (|held| >= max || lost == [])
  {
    if lost == [] {
      assert lost + held == held;
    } else if |held| < max {
      assert |LastN(lost + held, max)| > |held|;
    }
  }
}
