/** Request/response correlation on the consumer side: promises, their timers and the pending table. */
module ConsumerModel {
  import opened Common

  /** A control request handed to the caller as a promise; `ticket` is the promise's identity. */
  datatype Promise = Promise(id: string, deadline: nat)

  datatype How = Resolved | Rejected | TimedOut

  datatype Settlement = Settlement(ticket: nat, id: string, at: nat, how: How)

  /**
   `issued` records every promise ever returned; `timers` the armed ones; `pending` maps an id to the
   ticket of its latest entry.
   */
  datatype ConsumerState = ConsumerState(
    open: bool, pending: map<string, nat>, timers: map<nat, Promise>,
    issued: seq<Promise>, settled: seq<Settlement>, sent: seq<string>, emitted: seq<Option<string>>)

  const FRESH := ConsumerState(true, map[], map[], [], [], [], [])

  datatype Happening =
    | SendControl(id: string, timeoutMs: nat)
    | Result(key: Option<string>, ok: bool)   // a control_result frame
    | OtherFrame
    | Fire(ticket: nat)                      // the timer of a promise expires
    | SocketLost
    | Reconnected
    | Close

  datatype Input = Input(now: nat, what: Happening)

  function Step(s: ConsumerState, e: Input): ConsumerState {
    match e.what
    case SendControl(id, timeoutMs) =>
      if !s.open then s                      // throws before a promise exists
      else
        var t := |s.issued|;
        var p := Promise(id, e.now + timeoutMs);
        s.(issued := s.issued + [p], timers := s.timers[t := p], pending := s.pending[id := t], sent := s.sent + [id])
    case Result(id, ok) =>
      var s1 := s.(emitted := s.emitted + [id]);
      if id.Some? && id.value in s.pending then
        var t := s.pending[id.value];
        s1.(timers := s.timers - {t}, pending := s.pending - {id.value},
            settled := s.settled + [Settlement(t, id.value, e.now, if ok then Resolved else Rejected)])
      else s1
    case OtherFrame => s
    case Fire(t) =>
      if t in s.timers then
        s.(timers := s.timers - {t}, pending := s.pending - {s.timers[t].id},
           settled := s.settled + [Settlement(t, s.timers[t].id, e.now, TimedOut)])
      else s
    case SocketLost => s.(open := false)
    case Reconnected => s.(open := true)
    case Close => s.(open := false, timers := s.timers - s.pending.Values, pending := map[])
  }

  function Run(s: ConsumerState, es: seq<Input>): ConsumerState {
    if es == [] then s else Step(Run(s, es[..|es| - 1]), es[|es| - 1])
  }

  /* ---------- invariants ---------- */

  ghost predicate IsSettled(s: ConsumerState, t: nat) {
    exists i :: 0 <= i < |s.settled| && s.settled[i].ticket == t
  }

  ghost predicate Consistent(s: ConsumerState) {
    && (forall i, j :: 0 <= i < j < |s.settled| ==> s.settled[i].ticket != s.settled[j].ticket)
    && (forall i :: 0 <= i < |s.settled| ==> s.settled[i].ticket < |s.issued| && s.settled[i].ticket !in s.timers)
    && (forall i :: 0 <= i < |s.settled| ==> s.settled[i].id == s.issued[s.settled[i].ticket].id)
    && (forall t :: t in s.timers ==> t < |s.issued| && s.timers[t] == s.issued[t])
    && (forall id :: id in s.pending ==> s.pending[id] in s.timers && s.timers[s.pending[id]].id == id)
  }

  lemma SettleKeeps(s: ConsumerState, t: nat, x: Settlement)
    requires Consistent(s) && t in s.timers && x.ticket == t && x.id == s.timers[t].id
    ensures Consistent(s.(timers := s.timers - {t}, pending := s.pending - {x.id}, settled := s.settled + [x]))
  {
    var s' := s.(timers := s.timers - {t}, pending := s.pending - {x.id}, settled := s.settled + [x]);
    forall i | 0 <= i < |s'.settled|
      ensures s'.settled[i].ticket < |s.issued| && s'.settled[i].ticket !in s'.timers
              && s'.settled[i].id == s.issued[s'.settled[i].ticket].id
              && (i < |s.settled| ==> s'.settled[i].ticket != t)
    {
      if i < |s.settled| {
        assert s'.settled[i] == s.settled[i];
      }
    }
  }

  lemma StepConsistent(s: ConsumerState, e: Input)
    requires Consistent(s)
    ensures Consistent(Step(s, e))
  {
    match e.what
    case Result(id, ok) =>
      if id.Some? && id.value in s.pending {
        var t := s.pending[id.value];
        SettleKeeps(s, t, Settlement(t, id.value, e.now, if ok then Resolved else Rejected));
      }
    case Fire(t) =>
      if t in s.timers {
        SettleKeeps(s, t, Settlement(t, s.timers[t].id, e.now, TimedOut));
      }
    case _ =>
  }

  lemma {:induction false} RunConsistent(s: ConsumerState, es: seq<Input>)
    requires Consistent(s)
    ensures Consistent(Run(s, es))
  {
    if es != [] {
      RunConsistent(s, es[..|es| - 1]);
      StepConsistent(Run(s, es[..|es| - 1]), es[|es| - 1]);
    }
  }

  /* ---------- each promise settles at most once, for its own id ---------- */

  /** Over every run, whatever ids are used and however often: no promise settles twice or for another id. */
  lemma {:induction false} SettlesAtMostOnce(es: seq<Input>, i: nat, j: nat)
    requires i < |Run(FRESH, es).settled| && j < |Run(FRESH, es).settled|
    ensures var s := Run(FRESH, es);
      && s.settled[i].ticket < |s.issued| && s.settled[i].id == s.issued[s.settled[i].ticket].id
      && (s.settled[i].ticket == s.settled[j].ticket ==> i == j)
  {
    RunConsistent(FRESH, es);
  }

  /** A frame settles only the promise its id is filed with, and nothing if there is none. */
  lemma ResultSettlesItsOwn(s: ConsumerState, id: Option<string>, ok: bool, now: nat)
    requires Consistent(s)
    ensures var t := Step(s, Input(now, Result(id, ok)));
      if id.Some? && id.value in s.pending then
        && t.settled == s.settled + [Settlement(s.pending[id.value], id.value, now, if ok then Resolved else Rejected)]
        && id.value !in t.pending && !IsSettled(s, s.pending[id.value])
      else t.settled == s.settled && t.pending == s.pending && t.timers == s.timers
  {
  }

  /* ---------- each promise settles in time ---------- */

  /** Timers are punctual: nothing happens while one is overdue, and none expires early. */
  ghost predicate Punctual(s: ConsumerState, e: Input) {
    && (forall t :: t in s.timers ==> e.now <= s.timers[t].deadline)
    && (e.what.Fire? && e.what.ticket in s.timers ==> s.timers[e.what.ticket].deadline <= e.now)
  }

  ghost predicate PunctualRun(es: seq<Input>) {
    forall i :: 0 <= i < |es| ==> Punctual(Run(FRESH, es[..i]), es[i])
  }

  ghost predicate SettledInTime(s: ConsumerState, t: nat)
    requires t < |s.issued|
  {
    exists i :: 0 <= i < |s.settled| && s.settled[i].ticket == t && s.settled[i].at <= s.issued[t].deadline
  }

  /** Every promise is armed or was settled by its deadline. */
  ghost predicate Accounted(s: ConsumerState) {
    forall t: nat :: t < |s.issued| && t !in s.timers ==> SettledInTime(s, t)
  }

  /** A step settles nothing, or one armed promise, which it disarms. */
  lemma SettledGrows(s: ConsumerState, e: Input)
    requires Consistent(s)
    ensures var s' := Step(s, e);
      || s'.settled == s.settled
      || exists t, h :: t in s.timers && s'.timers == s.timers - {t} &&
                        s'.settled == s.settled + [Settlement(t, s.timers[t].id, e.now, h)]
  {
    match e.what
    case Result(id, ok) =>
      if id.Some? && id.value in s.pending {
        var t, h := s.pending[id.value], if ok then Resolved else Rejected;
        assert Step(s, e).settled == s.settled + [Settlement(t, s.timers[t].id, e.now, h)];
      }
    case Fire(t) =>
      if t in s.timers {
        assert Step(s, e).settled == s.settled + [Settlement(t, s.timers[t].id, e.now, TimedOut)];
      }
    case _ =>
  }

  lemma StepAccounted(s: ConsumerState, e: Input)
    requires Consistent(s) && Accounted(s) && Punctual(s, e) && !e.what.Close?
    ensures Accounted(Step(s, e))
  {
    var s' := Step(s, e);
    SettledGrows(s, e);
    forall t: nat | t < |s'.issued| && t !in s'.timers
      ensures SettledInTime(s', t)
    {
      if t < |s.issued| && t !in s.timers {
        StaysSettled(s, s', t);
      } else {
        Disarmed(s, e, t);
        assert s'.settled[|s.settled|].at <= s.issued[t].deadline;
      }
    }
  }

  lemma StaysSettled(s: ConsumerState, s': ConsumerState, t: nat)
    requires t < |s.issued| && SettledInTime(s, t)
    requires |s.issued| <= |s'.issued| && s'.issued[t] == s.issued[t] && s.settled <= s'.settled
    ensures SettledInTime(s', t)
  {
    var i :| 0 <= i < |s.settled| && s.settled[i].ticket == t && s.settled[i].at <= s.issued[t].deadline;
    assert s'.settled[i] == s.settled[i];
  }

  /** Unless closing, a timer disappears only because its promise is being settled. */
  lemma Disarmed(s: ConsumerState, e: Input, t: nat)
    requires Consistent(s) && !e.what.Close?
    requires t < |Step(s, e).issued| && t !in Step(s, e).timers && (t >= |s.issued| || t in s.timers)
    ensures t in s.timers && Step(s, e).issued == s.issued
    ensures |Step(s, e).settled| == |s.settled| + 1
    ensures Step(s, e).settled[|s.settled|].ticket == t && Step(s, e).settled[|s.settled|].at == e.now
  {
  }

  lemma {:induction false} RunAccounted(es: seq<Input>)
    requires PunctualRun(es) && forall i :: 0 <= i < |es| ==> !es[i].what.Close?
    ensures Accounted(Run(FRESH, es))
  {
    if es != [] {
      var n := |es| - 1;
      forall i | 0 <= i < n
        ensures Punctual(Run(FRESH, es[..n][..i]), es[..n][i])
      {
        assert es[..n][..i] == es[..i];
      }
      RunAccounted(es[..n]);
      RunConsistent(FRESH, es[..n]);
      StepAccounted(Run(FRESH, es[..n]), es[n]);
    }
  }

  lemma SettledByDeadline(es: seq<Input>, n: nat, t: nat)
    requires n < |es| && PunctualRun(es) && forall i :: 0 <= i < |es| ==> !es[i].what.Close?
    requires var s := Run(FRESH, es[..n]); t < |s.issued| && s.issued[t].deadline < es[n].now
    ensures SettledInTime(Run(FRESH, es[..n]), t)
  {
    forall i | 0 <= i < n
      ensures Punctual(Run(FRESH, es[..n][..i]), es[..n][i])
    {
      assert es[..n][..i] == es[..i];
    }
    RunAccounted(es[..n]);
    RunConsistent(FRESH, es[..n]);
    var s := Run(FRESH, es[..n]);
    assert Punctual(s, es[n]);
    assert t !in s.timers;
  }

  /* ---------- the promises, read off the inputs ---------- */

  /** The socket is lost by a loss or by close() and regained by reconnecting. */
  predicate OpenAfter(es: seq<Input>) {
    if es == [] then true
    else
      match es[|es| - 1].what
      case SocketLost => false
      case Close => false
      case Reconnected => true
      case _ => OpenAfter(es[..|es| - 1])
  }

  /** A request made while the socket was open; otherwise the call throws. */
  predicate Issues(es: seq<Input>, i: nat)
    requires i < |es|
  {
    es[i].what.SendControl? && OpenAfter(es[..i])
  }

  function PromiseOf(e: Input): Promise
    requires e.what.SendControl?
  {
    Promise(e.what.id, e.now + e.what.timeoutMs)
  }

  /** One promise per such request, due `timeoutMs` after it. */
  function Promised(es: seq<Input>): seq<Promise> {
    if es == [] then []
    else
      var n := |es| - 1;
      Promised(es[..n]) + (if Issues(es, n) then [PromiseOf(es[n])] else [])
  }

  function Ids(ps: seq<Promise>): seq<string> {
    seq(|ps|, i requires 0 <= i < |ps| => ps[i].id)
  }

  /** Over every run: the ids put on the wire and the promises returned are those of the requests, in order. */
  lemma {:induction false} RequestsAreSent(es: seq<Input>)
    ensures var s := Run(FRESH, es);
      s.open == OpenAfter(es) && s.issued == Promised(es) && s.sent == Ids(Promised(es))
  {
    if es != [] {
      RequestsAreSent(es[..|es| - 1]);
    }
  }

  /** The identity of the promise that input `i` returned. */
  function Ticket(es: seq<Input>, i: nat): nat
    requires i < |es|
  {
    |Promised(es[..i])|
  }

  lemma {:induction false} PromisedAt(es: seq<Input>, i: nat)
    requires i < |es| && Issues(es, i)
    ensures Ticket(es, i) < |Promised(es)| && Promised(es)[Ticket(es, i)] == PromiseOf(es[i])
    decreases |es|
  {
    var n := |es| - 1;
    if i < n {
      assert es[..n][..i] == es[..i];
      PromisedAt(es[..n], i);
    }
  }

  /**
   Without close(): when anything happens later than `timeoutMs` after a request, its promise has settled,
   for the request's own id, no later than that.
   */
  lemma {:induction false} SettlesInTime(es: seq<Input>, i: nat, n: nat)
    requires i < n < |es| && PunctualRun(es) && forall j :: 0 <= j < |es| ==> !es[j].what.Close?
    requires Issues(es, i) && es[i].now + es[i].what.timeoutMs < es[n].now
    ensures var s := Run(FRESH, es[..n]);
      exists k :: 0 <= k < |s.settled| && s.settled[k].ticket == Ticket(es, i) && s.settled[k].id == es[i].what.id
                  && s.settled[k].at <= es[i].now + es[i].what.timeoutMs
  {
    assert es[..n][..i] == es[..i];
    PromisedAt(es[..n], i);
    RequestsAreSent(es[..n]);
    SettledByDeadline(es, n, Ticket(es, i));
    RunConsistent(FRESH, es[..n]);
  }

  /** A timeout is a timer's doing; a resolution and a rejection are those of a result with the promise's id. */
  predicate Causes(e: Input, x: Settlement) {
    && e.now == x.at
    && match x.how
       case TimedOut => e.what == Fire(x.ticket)
       case Resolved => e.what == Result(Some(x.id), true)
       case Rejected => e.what == Result(Some(x.id), false)
  }

  /** Over every run no promise settles without a cause. */
  lemma {:induction false} SettledForCause(es: seq<Input>, k: nat)
    requires k < |Run(FRESH, es).settled|
    ensures exists i :: 0 <= i < |es| && Causes(es[i], Run(FRESH, es).settled[k])
  {
    var n := |es| - 1;
    var before := Run(FRESH, es[..n]);
    RunConsistent(FRESH, es[..n]);
    SettledGrows(before, es[n]);
    if k < |before.settled| {
      SettledForCause(es[..n], k);
      var i :| 0 <= i < n && Causes(es[..n][i], before.settled[k]);
      assert Causes(es[i], Run(FRESH, es).settled[k]);
    } else {
      assert Causes(es[n], Run(FRESH, es).settled[k]);
    }
  }

  /** Inputs that take an id's entry in the pending table away: its result, close(), a timer, a new request. */
  predicate Touches(s: ConsumerState, e: Input, id: string) {
    match e.what
    case SendControl(x, _) => s.open && x == id
    case Result(key, _) => key == Some(id)
    case Fire(t) => t in s.timers && s.timers[t].id == id
    case Close => true
    case _ => false
  }

  ghost predicate Untouched(es: seq<Input>, i: nat)
    requires i < |es| && es[i].what.SendControl?
  {
    forall j :: i < j < |es| ==> !TouchedAt(es, j, es[i].what.id)
  }

  /** Input `j` takes the entry away. */
  predicate TouchedAt(es: seq<Input>, j: nat, id: string)
    requires j < |es|
  {
    Touches(Run(FRESH, es[..j]), es[j], id)
  }

  lemma TouchedBefore(es: seq<Input>, n: nat, j: nat, id: string)
    requires j < n <= |es|
    ensures TouchedAt(es[..n], j, id) == TouchedAt(es, j, id)
  {
    assert es[..n][..j] == es[..j];
  }

  lemma UntouchedSnoc(es: seq<Input>, i: nat)
    requires i < |es| - 1 && es[i].what.SendControl?
    ensures var n := |es| - 1;
      Untouched(es, i) <==> Untouched(es[..n], i) && !TouchedAt(es, n, es[i].what.id)
  {
    var n := |es| - 1;
    forall j | i < j < n
      ensures TouchedAt(es[..n], j, es[i].what.id) == TouchedAt(es, j, es[i].what.id)
    {
      TouchedBefore(es, n, j, es[i].what.id);
    }
  }

  predicate Awaits(s: ConsumerState, id: string, t: nat) {
    id in s.pending && s.pending[id] == t
  }

  lemma AwaitsStep(s: ConsumerState, e: Input, id: string, t: nat)
    requires Consistent(s) && t < |s.issued|
    ensures Awaits(Step(s, e), id, t) <==> Awaits(s, id, t) && !Touches(s, e, id)
  {
  }

  lemma {:induction false} AwaitsExactly(es: seq<Input>, i: nat)
    requires i < |es| && Issues(es, i)
    ensures Awaits(Run(FRESH, es), es[i].what.id, Ticket(es, i)) <==> Untouched(es, i)
    decreases |es|
  {
    var n := |es| - 1;
    RequestsAreSent(es[..n]);
    if i < n {
      assert es[..n][..i] == es[..i];
      AwaitsExactly(es[..n], i);
      UntouchedSnoc(es, i);
      PromisedAt(es[..n], i);
      RunConsistent(FRESH, es[..n]);
      AwaitsStep(Run(FRESH, es[..n]), es[n], es[i].what.id, Ticket(es, i));
    } else {
      AwaitsAtOnce(Run(FRESH, es[..n]), es[n]);
    }
  }

  lemma AwaitsAtOnce(s: ConsumerState, e: Input)
    requires e.what.SendControl? && s.open
    ensures Awaits(Step(s, e), e.what.id, |s.issued|)
  {
  }

  /** A result settles the promise of a request iff nothing has touched the entry of its id since. */
  lemma ResultSettlesExactly(es: seq<Input>, i: nat, ok: bool, now: nat)
    requires i < |es| && Issues(es, i)
    ensures var s, id := Run(FRESH, es), es[i].what.id;
      var own := Settlement(Ticket(es, i), id, now, if ok then Resolved else Rejected);
      Step(s, Input(now, Result(Some(id), ok))).settled == s.settled + [own] <==> Untouched(es, i)
  {
    var s, id := Run(FRESH, es), es[i].what.id;
    AwaitsExactly(es, i);
    RunConsistent(FRESH, es);
    ResultSettlesItsOwn(s, Some(id), ok, now);
    var t := Step(s, Input(now, Result(Some(id), ok)));
    if id in s.pending {
      assert t.settled[|s.settled|].ticket == s.pending[id];
    }
  }

  /* ---------- what close() does to promises ---------- */

  /** A promise that is neither settled nor armed. */
  ghost predicate Stranded(s: ConsumerState, t: nat) {
    t < |s.issued| && t !in s.timers && !IsSettled(s, t)
  }

  lemma StrandedForGood(s: ConsumerState, e: Input, t: nat)
    requires Consistent(s) && Stranded(s, t)
    ensures Stranded(Step(s, e), t)
  {
    var s' := Step(s, e);
    SettledGrows(s, e);
    forall i | 0 <= i < |s'.settled|
      ensures s'.settled[i].ticket != t
    {
      if i < |s.settled| {
        assert s'.settled[i] == s.settled[i];
      }
    }
  }

  lemma {:induction false} StrandedInEveryFuture(s: ConsumerState, es: seq<Input>, t: nat)
    requires Consistent(s) && Stranded(s, t)
    ensures Stranded(Run(s, es), t)
  {
    if es != [] {
      StrandedInEveryFuture(s, es[..|es| - 1], t);
      RunConsistent(s, es[..|es| - 1]);
      StrandedForGood(Run(s, es[..|es| - 1]), es[|es| - 1], t);
    }
  }

  /** close() never settles anything; it strands exactly the promises in the pending table. */
  lemma CloseStrandsExactlyPending(s: ConsumerState, now: nat, t: nat)
    requires Consistent(s) && t < |s.issued| && !Stranded(s, t)
    ensures Stranded(Step(s, Input(now, Close)), t) <==> t in s.pending.Values
    ensures Step(s, Input(now, Close)).settled == s.settled
  {
    var s' := Step(s, Input(now, Close));
    if t in s.pending.Values {
      var id :| id in s.pending && s.pending[id] == t;
      assert t in s.timers;
      assert !IsSettled(s, t);
      assert !IsSettled(s', t);
    } else {
      assert IsSettled(s, t) ==> IsSettled(s', t);
    }
  }

  /** A promise that is armed and not stranded can still be settled: its timer does it. */
  lemma ArmedSettlesByItsTimer(s: ConsumerState, now: nat, t: nat)
    requires Consistent(s) && t in s.timers
    ensures IsSettled(Step(s, Input(now, Fire(t))), t) && !IsSettled(s, t)
  {
    var s' := Step(s, Input(now, Fire(t)));
    assert s'.settled[|s.settled|].ticket == t;
  }
}
