/** The Lua client's queue: drop-oldest on the way in, bounded batches on the way out. */
module LuaQueue {
  import opened Common

  datatype Removal = Overflowed(ev: nat) | Posted(ev: nat)

  /** `removed` is everything that ever left the queue, in order; `accepted` everything that entered. */
  datatype LuaState = LuaState(running: bool, session: bool, queue: seq<nat>,
                               accepted: seq<nat>, removed: seq<Removal>, batches: seq<seq<nat>>)

  const INITIAL := LuaState(false, false, [], [], [], [])

  datatype Config = Config(queueLimit: nat, maxBatch: nat)

  datatype Input = Start | Stop | Enqueue(ev: nat) | Flush

  function AsPosted(batch: seq<nat>): seq<Removal> {
    seq(|batch|, i requires 0 <= i < |batch| => Posted(batch[i]))
  }

  function Step(c: Config, s: LuaState, i: Input): LuaState {
    match i
    case Start => s.(running := true, session := true)
    case Stop => s.(running := false)
    case Enqueue(ev) =>
      if !s.running then s
      else
        var full := |s.queue| >= c.queueLimit && s.queue != [];
        s.(queue := (if full then s.queue[1..] else s.queue) + [ev],
           removed := s.removed + (if full then [Overflowed(s.queue[0])] else []),
           accepted := s.accepted + [ev])
    case Flush =>
      if !s.running || !s.session || s.queue == [] then s
      else
        var n := Min(c.maxBatch, |s.queue|);
        s.(queue := s.queue[n..], removed := s.removed + AsPosted(s.queue[..n]), batches := s.batches + [s.queue[..n]])
  }

  function Run(c: Config, es: seq<Input>): LuaState {
    if es == [] then INITIAL else Step(c, Run(c, es[..|es| - 1]), es[|es| - 1])
  }

  class Client {
    const cfg: Config
    var running: bool
    var session: bool
    var queue: seq<nat>
    var batches: seq<seq<nat>>
    ghost var accepted: seq<nat>
    ghost var removed: seq<Removal>

    ghost function State(): LuaState
      reads this
    {
      LuaState(running, session, queue, accepted, removed, batches)
    }

    constructor (cfg: Config)
      ensures State() == INITIAL && this.cfg == cfg
    {
      this.cfg := cfg;
      running, session, queue, batches, accepted, removed := false, false, [], [], [], [];
    }

    method EnqueueEvent(ev: nat)
      modifies this
      ensures State() == Step(cfg, old(State()), Enqueue(ev))
    {
      if !running {
        return;
      }
      if |queue| >= cfg.queueLimit && |queue| > 0 {
        removed := removed + [Overflowed(queue[0])];
        queue := queue[1..];
      }
      queue := queue + [ev];
      accepted := accepted + [ev];
    }

    /** Copies a batch from the front, removes it one element at a time, and posts it. */
    method FlushOnce()
      modifies this
      ensures State() == Step(cfg, old(State()), Flush)
    {
      if !running || !session {
        return;
      }
      if |queue| == 0 {
        return;
      }
      var batchSize := if cfg.maxBatch < |queue| then cfg.maxBatch else |queue|;
      var batch: seq<nat> := [];
      for i := 0 to batchSize
        invariant batch == queue[..i] && State() == old(State())
      {
        batch := batch + [queue[i]];
      }
      for i := 0 to batchSize
        invariant queue == old(queue)[i..] && State() == old(State()).(queue := queue)
      {
        queue := queue[1..];
      }
      assert batch == old(queue)[..batchSize];
      removed := removed + AsPosted(batch);
      batches := batches + [batch];
    }
  }

  /* ---------- nothing lost but the oldest, nothing reordered ---------- */

  function Events(removed: seq<Removal>): seq<nat> {
    seq(|removed|, i requires 0 <= i < |removed| => removed[i].ev)
  }

  function PostedEvents(removed: seq<Removal>): seq<nat> {
    if removed == [] then []
    else
      var n := |removed| - 1;
      PostedEvents(removed[..n]) + (if removed[n].Posted? then [removed[n].ev] else [])
  }

  function Flatten(batches: seq<seq<nat>>): seq<nat> {
    if batches == [] then [] else Flatten(batches[..|batches| - 1]) + batches[|batches| - 1]
  }

  lemma {:induction false} PostedConcat(a: seq<Removal>, batch: seq<nat>)
    ensures PostedEvents(a + AsPosted(batch)) == PostedEvents(a) + batch
    decreases |batch|
  {
    if batch == [] {
      assert a + AsPosted(batch) == a;
    } else {
      var n := |batch| - 1;
      var all := a + AsPosted(batch);
      assert all[..|all| - 1] == a + AsPosted(batch[..n]);
      PostedConcat(a, batch[..n]);
    }
  }

  /** What left the queue, in order, followed by the queue is what was accepted; batches are the posted part. */
  ghost predicate Faithful(c: Config, s: LuaState) {
    && Events(s.removed) + s.queue == s.accepted
    && Flatten(s.batches) == PostedEvents(s.removed)
    && |s.queue| <= c.queueLimit
    && forall k :: 0 <= k < |s.batches| ==> 1 <= |s.batches[k]| <= c.maxBatch
  }

  lemma FlushFaithful(c: Config, s: LuaState)
    requires Faithful(c, s) && c.maxBatch > 0
    ensures Faithful(c, Step(c, s, Flush))
  {
    if s.running && s.session && s.queue != [] {
      var n := Min(c.maxBatch, |s.queue|);
      var t := Step(c, s, Flush);
      PostedConcat(s.removed, s.queue[..n]);
      assert t.batches[..|t.batches| - 1] == s.batches;
      assert Events(t.removed) == Events(s.removed) + s.queue[..n];
      SplitBehind(Events(s.removed), s.queue, n);
    }
  }

  lemma SplitBehind(gone: seq<nat>, queue: seq<nat>, n: nat)
    requires n <= |queue|
    ensures (gone + queue[..n]) + queue[n..] == gone + queue
  {
  }

  /** Overflowing an event moves it from the queue to what left, and posts nothing. */
  lemma OverflowPostsNothing(a: seq<Removal>, x: nat)
    ensures Events(a + [Overflowed(x)]) == Events(a) + [x]
    ensures PostedEvents(a + [Overflowed(x)]) == PostedEvents(a)
  {
    var all := a + [Overflowed(x)];
    assert all[..|all| - 1] == a;
    assert PostedEvents(all) == PostedEvents(a) + [];
  }

  lemma MoveOver(gone: seq<nat>, queue: seq<nat>, ev: nat)
    requires queue != []
    ensures (gone + [queue[0]]) + (queue[1..] + [ev]) == (gone + queue) + [ev]
  {
  }

  lemma Behind(gone: seq<nat>, queue: seq<nat>, ev: nat)
    ensures gone + (queue + [ev]) == (gone + queue) + [ev]
  {
  }

  lemma EnqueueFaithful(c: Config, s: LuaState, ev: nat)
    requires Faithful(c, s) && c.queueLimit > 0
    ensures Faithful(c, Step(c, s, Enqueue(ev)))
  {
    if s.running {
      if |s.queue| >= c.queueLimit {
        OverflowPostsNothing(s.removed, s.queue[0]);
        MoveOver(Events(s.removed), s.queue, ev);
      } else {
        assert s.removed + [] == s.removed;
        Behind(Events(s.removed), s.queue, ev);
      }
    }
  }

  /** Over every run: accepted = removed in order + queue, batches are the posted removals in order. */
  lemma {:induction false} QueueIsFaithful(c: Config, es: seq<Input>)
    requires c.queueLimit > 0 && c.maxBatch > 0
    ensures Faithful(c, Run(c, es))
  {
    if es != [] {
      var n := |es| - 1;
      QueueIsFaithful(c, es[..n]);
      match es[n]
      case Flush => FlushFaithful(c, Run(c, es[..n]));
      case Enqueue(ev) => EnqueueFaithful(c, Run(c, es[..n]), ev);
      case _ =>
    }
  }

  /* ---------- how much overflows, and that nothing else stays behind ---------- */

  /** Whenever an event has overflowed, at least `queueLimit` newer ones were accepted after it. */
  ghost predicate OnlyTheOldest(c: Config, s: LuaState) {
    forall i :: 0 <= i < |s.removed| && s.removed[i].Overflowed? ==> i + c.queueLimit < |s.accepted|
  }

  /** Over every run: an event overflows only behind a full queue of newer ones, so no more go than have to. */
  lemma {:induction false} OverflowsOnlyWhenFull(c: Config, es: seq<Input>)
    requires c.queueLimit > 0 && c.maxBatch > 0
    ensures OnlyTheOldest(c, Run(c, es))
  {
    if es != [] {
      var n := |es| - 1;
      var s := Run(c, es[..n]);
      OverflowsOnlyWhenFull(c, es[..n]);
      QueueIsFaithful(c, es[..n]);
      assert |s.removed| + |s.queue| == |s.accepted|;
    }
  }

  /** What `k` flushes in a row leave behind. */
  function Flushes(c: Config, s: LuaState, k: nat): LuaState {
    if k == 0 then s else Step(c, Flushes(c, s, k - 1), Flush)
  }

  function Batch(c: Config, s: LuaState): seq<nat> {
    Take(s.queue, c.maxBatch)
  }

  /** While running with a session, a flush of a queue that is not empty posts its oldest events, as many as allowed. */
  lemma FlushPostsOldest(c: Config, s: LuaState)
    requires s.running && s.session && s.queue != []
    ensures var t := Step(c, s, Flush);
      t.batches == s.batches + [Batch(c, s)] && Batch(c, s) + t.queue == s.queue && t.running && t.session
  {
  }

  /** What `k` full batches hold. */
  function Batches(c: Config, k: nat): nat {
    if k == 0 then 0 else Batches(c, k - 1) + c.maxBatch
  }

  lemma {:induction false} BatchesAdd(c: Config, k: nat)
    ensures Batches(c, k) == k * c.maxBatch
  {
    if k > 0 {
      BatchesAdd(c, k - 1);
      assert k * c.maxBatch == (k - 1) * c.maxBatch + c.maxBatch;
    }
  }

  /** The queue `t` has been reached from `s` by posting the oldest `n` events, or all there were. */
  ghost predicate HasPosted(s: LuaState, t: LuaState, n: nat) {
    && t.running && t.session
    && Flatten(t.batches) == Flatten(s.batches) + Take(s.queue, n)
    && Take(s.queue, n) + t.queue == s.queue
  }

  lemma {:induction false} FlushesPost(c: Config, s: LuaState, k: nat)
    requires s.running && s.session
    ensures HasPosted(s, Flushes(c, s, k), Batches(c, k))
  {
    if k == 0 {
      assert Take(s.queue, 0) == [];
    } else {
      FlushesPost(c, s, k - 1);
      OneMoreFlush(c, s, Flushes(c, s, k - 1), Batches(c, k - 1));
    }
  }

  lemma {:induction false} FlushesIdle(c: Config, s: LuaState, k: nat)
    requires !s.running || !s.session
    ensures Flushes(c, s, k) == s
  {
    if k > 0 {
      FlushesIdle(c, s, k - 1);
    }
  }

  /**
   Nothing stays behind: after k flushes exactly the oldest k * maxBatch events have been posted, in order,
   so that ceil(n / maxBatch) flushes post a queue of n. Without a session, or once stopped, none does.
   */
  lemma FlushesEmptyTheQueue(c: Config, s: LuaState, k: nat)
    ensures var t := Flushes(c, s, k);
      if s.running && s.session then
        && Flatten(t.batches) == Flatten(s.batches) + Take(s.queue, k * c.maxBatch)
        && Take(s.queue, k * c.maxBatch) + t.queue == s.queue
      else t == s
  {
    BatchesAdd(c, k);
    if s.running && s.session {
      FlushesPost(c, s, k);
    } else {
      FlushesIdle(c, s, k);
    }
  }

  lemma FlattenSnoc(batches: seq<seq<nat>>, batch: seq<nat>)
    ensures Flatten(batches + [batch]) == Flatten(batches) + batch
  {
    assert (batches + [batch])[..|batches|] == batches;
  }

  /** What one flush adds to the posted events, and what it leaves. */
  lemma FlushMoves(c: Config, t: LuaState)
    requires t.running && t.session
    ensures var u := Step(c, t, Flush);
      && u.running && u.session
      && Flatten(u.batches) == Flatten(t.batches) + Batch(c, t) && Batch(c, t) + u.queue == t.queue
  {
    if t.queue == [] {
      assert Flatten(t.batches) + [] == Flatten(t.batches);
    } else {
      FlushPostsOldest(c, t);
      FlattenSnoc(t.batches, Batch(c, t));
    }
  }

  lemma OneMoreFlush(c: Config, s: LuaState, t: LuaState, gone: nat)
    requires HasPosted(s, t, gone)
    ensures HasPosted(s, Step(c, t, Flush), gone + c.maxBatch)
  {
    var u := Step(c, t, Flush);
    TakeMore(s.queue, gone, t.queue, c.maxBatch);
    FlushMoves(c, t);
    Regroup(Flatten(s.batches), Take(s.queue, gone), Batch(c, t), u.queue, t.queue, s.queue);
  }

  lemma Regroup(base: seq<nat>, gone: seq<nat>, batch: seq<nat>, rest: seq<nat>, before: seq<nat>, all: seq<nat>)
    requires batch + rest == before && gone + before == all
    ensures (base + gone) + batch == base + (gone + batch)
    ensures (gone + batch) + rest == all
  {
    Associates(base, gone, batch);
    Associates(gone, batch, rest);
  }

  lemma TakeMore(queue: seq<nat>, gone: nat, rest: seq<nat>, n: nat)
    requires Take(queue, gone) + rest == queue
    ensures Take(queue, gone + n) == Take(queue, gone) + Take(rest, n)
  {
    if |queue| > gone {
      assert rest == queue[gone..];
      assert Take(queue, gone + n) == queue[..gone] + Take(rest, n);
    } else {
      assert rest == [] && queue + [] == queue;
    }
  }

  /** Started more recently than stopped. */
  predicate RunningAfter(es: seq<Input>) {
    es != [] &&
    var n := |es| - 1;
    match es[n]
    case Start => true
    case Stop => false
    case _ => RunningAfter(es[..n])
  }

  /** The events handed over while the client was running; others are ignored. */
  function Offered(es: seq<Input>): seq<nat> {
    if es == [] then []
    else
      var n := |es| - 1;
      Offered(es[..n]) + (if es[n].Enqueue? && RunningAfter(es[..n]) then [es[n].ev] else [])
  }

  /** Over every run: what is accepted is what was offered while running, and a session outlives a stop. */
  lemma {:induction false} AcceptsWhileRunning(c: Config, es: seq<Input>)
    ensures var s := Run(c, es);
      s.accepted == Offered(es) && s.running == RunningAfter(es) && (s.session <==> Start in es)
  {
    if es != [] {
      var n := |es| - 1;
      AcceptsWhileRunning(c, es[..n]);
      assert es == es[..n] + [es[n]];
    }
  }
}
